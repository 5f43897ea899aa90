/** Checkpoint and recovery of the FTL. A checkpoint dictionary is a sequence of entries, because
    writing it through the journal reorders them; any order must recover the same FTL. */
module FtlCheckpoint {
  import opened Common
  import opened Geometry
  import opened FtlSpec
  import opened FtlBounds
  import opened FtlCollect

  // ----- decimal text

  const DIGITS := "0123456789"

  function NatToString(n: nat): (s: string)
    ensures s != [] && forall c :: c in s ==> c in DIGITS
  {
    if n < 10 then [DIGITS[n]] else NatToString(n / 10) + [DIGITS[n % 10]]
  }

  function IntToString(n: int): string {
    if n < 0 then "-" + NatToString(-n) else NatToString(n)
  }

  function DigitValue(c: char): (d: Option<nat>)
    ensures d.Some? <==> c in DIGITS
    ensures d.Some? ==> d.value < 10 && DIGITS[d.value] == c
  {
    if '0' <= c <= '9' then
      assert DIGITS[c as int - '0' as int] == c;
      Some(c as int - '0' as int)
    else None
  }

  function ParseNat(s: string): Option<nat> {
    if s == [] then None
    else
      var d := DigitValue(s[|s| - 1]);
      if d.None? then None
      else if |s| == 1 then d
      else
        var high := ParseNat(s[..|s| - 1]);
        if high.None? then None else Some(high.value * 10 + d.value)
  }

  function ParseInt(s: string): Option<int> {
    if s != [] && s[0] == '-' then
      var n := ParseNat(s[1..]);
      if n.None? then None else Some(0 - n.value)
    else
      var n := ParseNat(s);
      if n.None? then None else Some(n.value)
  }

  lemma DigitRoundTrip(d: nat)
    requires d < 10
    ensures DigitValue(DIGITS[d]) == Some(d)
  {
  }

  lemma {:induction false} NatRoundTrip(n: nat)
    ensures ParseNat(NatToString(n)) == Some(n)
  {
    if n < 10 {
      DigitRoundTrip(n);
    } else {
      NatRoundTrip(n / 10);
      ParseAppend(NatToString(n / 10), n / 10, n % 10);
    }
  }

  lemma ParseAppend(s: string, high: nat, d: nat)
    requires s != [] && ParseNat(s) == Some(high) && d < 10
    ensures ParseNat(s + [DIGITS[d]]) == Some(high * 10 + d)
  {
    DigitRoundTrip(d);
    assert (s + [DIGITS[d]])[..|s|] == s;
  }

  /** Exactly the non-empty strings of digits are numbers. */
  lemma {:induction false} DigitsParse(s: string)
    ensures ParseNat(s).Some? <==> s != [] && forall c :: c in s ==> c in DIGITS
  {
    if s != [] {
      var n := |s| - 1;
      assert s == s[..n] + [s[n]];
      DigitsParse(s[..n]);
    }
  }

  lemma SignedText(n: nat)
    ensures NatToString(n)[0] != '-'
  {
    assert NatToString(n)[0] in NatToString(n);
  }

  lemma IntRoundTrip(n: int)
    ensures ParseInt(IntToString(n)) == Some(n)
  {
    var digits := NatToString(if n < 0 then -n else n);
    NatRoundTrip(if n < 0 then -n else n);
    SignedText(if n < 0 then -n else n);
    assert ("-" + digits)[1..] == digits;
  }

  // ----- slash-joined block keys

  function Split(s: string): (parts: seq<string>)
    ensures parts != []
  {
    if s == [] then [""]
    else
      var rest := Split(s[1..]);
      if s[0] == '/' then [""] + rest else [[s[0]] + rest[0]] + rest[1..]
  }

  function EncodeBlock(b: BlockKey): string {
    IntToString(b.channel) + "/" + (IntToString(b.die) + "/" + IntToString(b.block))
  }

  function DecodeBlock(s: string): Option<BlockKey> {
    var parts := Split(s);
    if |parts| != 3 then None
    else
      var c, d, b := ParseInt(parts[0]), ParseInt(parts[1]), ParseInt(parts[2]);
      if c.Some? && d.Some? && b.Some? then Some(BlockKey(c.value, d.value, b.value)) else None
  }

  lemma {:induction false} SplitPlain(a: string)
    requires '/' !in a
    ensures Split(a) == [a]
  {
    if a != [] {
      assert a[0] in a && a == [a[0]] + a[1..];
      SplitPlain(a[1..]);
    }
  }

  lemma {:induction false} SplitJoined(a: string, rest: string)
    requires '/' !in a
    ensures Split(a + "/" + rest) == [a] + Split(rest)
  {
    var s := a + "/" + rest;
    if a == [] {
      assert s[1..] == rest;
    } else {
      assert s[1..] == a[1..] + "/" + rest;
      assert a[0] in a && a == [a[0]] + a[1..];
      SplitJoined(a[1..], rest);
    }
  }

  lemma NoSlash(n: int)
    ensures '/' !in IntToString(n)
  {
  }

  lemma BlockRoundTrip(b: BlockKey)
    ensures DecodeBlock(EncodeBlock(b)) == Some(b)
  {
    NoSlash(b.channel);
    NoSlash(b.die);
    NoSlash(b.block);
    var c, d, k := IntToString(b.channel), IntToString(b.die), IntToString(b.block);
    SplitJoined(c, d + "/" + k);
    SplitJoined(d, k);
    SplitPlain(k);
    IntRoundTrip(b.channel);
    IntRoundTrip(b.die);
    IntRoundTrip(b.block);
  }

  // ----- values

  function EncodePage(p: PhysicalPage): seq<int> {
    [p.channel, p.die, p.block, p.page]
  }

  function DecodePage(q: seq<int>): Option<PhysicalPage> {
    if |q| == 4 then Some(PhysicalPage(q[0], q[1], q[2], q[3])) else None
  }

  /** The text of a block key and the list of a page, on an example. */
  lemma Formats()
    ensures EncodeBlock(BlockKey(3, 0, 25)) == "3/0/25"
    ensures IntToString(-407) == "-407"
    ensures EncodePage(PhysicalPage(3, 0, 25, 7)) == [3, 0, 25, 7]
  {
    assert NatToString(25) == NatToString(2) + ['5'];
    assert NatToString(407) == NatToString(40) + ['7'] && NatToString(40) == NatToString(4) + ['0'];
  }

  function DecodeCount(n: int): Option<int> {
    Some(n)
  }

  function DecodeSet(q: seq<int>): Option<set<int>> {
    Some(set x | x in q)
  }

  // ----- dictionaries as entry lists

  /** A dictionary comprehension over the entries: a later entry overrides an earlier one. */
  function Load<K, V, W>(entries: seq<(string, W)>, key: string -> Option<K>, val: W -> Option<V>): Option<map<K, V>> {
    if entries == [] then Some(map[])
    else
      var (k, w) := entries[|entries| - 1];
      var rest := Load(entries[..|entries| - 1], key, val);
      if rest.Some? && key(k).Some? && val(w).Some? then Some(rest.value[key(k).value := val(w).value]) else None
  }

  /** `entries` holds the encoded items of `m` and nothing else, in any order. */
  ghost predicate Lists<K(!new), V, W(!new)>(entries: seq<(string, W)>, m: map<K, V>, ek: K -> string, ev: V -> W) {
    && (forall k :: k in m ==> (ek(k), ev(m[k])) in entries)
    && (forall e :: e in entries ==> exists k :: k in m && e == (ek(k), ev(m[k])))
  }

  /** The items of `m` that occur among `entries`. */
  ghost function Listed<K(!new), V, W>(entries: seq<(string, W)>, m: map<K, V>, ek: K -> string, ev: V -> W): map<K, V> {
    map k | k in m && (ek(k), ev(m[k])) in entries :: m[k]
  }

  lemma {:induction false} LoadListed<K(!new), V, W(!new)>(entries: seq<(string, W)>, m: map<K, V>,
                                                          ek: K -> string, ev: V -> W,
                                                          key: string -> Option<K>, val: W -> Option<V>)
    requires forall k :: k in m ==> key(ek(k)) == Some(k) && val(ev(m[k])) == Some(m[k])
    requires forall e :: e in entries ==> exists k :: k in m && e == (ek(k), ev(m[k]))
    ensures Load(entries, key, val) == Some(Listed(entries, m, ek, ev))
  {
    if entries == [] {
      assert Listed(entries, m, ek, ev) == map[];
    } else {
      var front, last := entries[..|entries| - 1], entries[|entries| - 1];
      assert entries == front + [last];
      assert forall e :: e in front ==> e in entries;
      LoadListed(front, m, ek, ev, key, val);
      assert last in entries;
      var k :| k in m && last == (ek(k), ev(m[k]));
      assert Listed(entries, m, ek, ev) == Listed(front, m, ek, ev)[k := m[k]];
    }
  }

  /** Loading any listing of a dictionary whose keys and values decode gives the dictionary back. */
  lemma LoadListing<K(!new), V, W(!new)>(entries: seq<(string, W)>, m: map<K, V>,
                                        ek: K -> string, ev: V -> W,
                                        key: string -> Option<K>, val: W -> Option<V>)
    requires Lists(entries, m, ek, ev)
    requires forall k :: k in m ==> key(ek(k)) == Some(k) && val(ev(m[k])) == Some(m[k])
    ensures Load(entries, key, val) == Some(m)
  {
    LoadListed(entries, m, ek, ev, key, val);
    assert Listed(entries, m, ek, ev) == m;
  }

  function LoadPages(q: seq<seq<int>>): Option<seq<PhysicalPage>> {
    if q == [] then Some([])
    else
      var p, rest := DecodePage(q[0]), LoadPages(q[1..]);
      if p.Some? && rest.Some? then Some([p.value] + rest.value) else None
  }

  function EncodePages(q: seq<PhysicalPage>): seq<seq<int>> {
    seq(|q|, i requires 0 <= i < |q| => EncodePage(q[i]))
  }

  lemma {:induction false} PagesRoundTrip(q: seq<PhysicalPage>)
    ensures LoadPages(EncodePages(q)) == Some(q)
  {
    if q != [] {
      assert EncodePages(q)[1..] == EncodePages(q[1..]);
      assert q == [q[0]] + q[1..];
      PagesRoundTrip(q[1..]);
    }
  }

  // ----- checkpoint and recovery

  datatype Checkpoint = Checkpoint(nextPage: int,
                                   mapping: seq<(string, seq<int>)>,
                                   invalid: seq<(string, int)>,
                                   valid: seq<(string, seq<int>)>,
                                   erase: seq<(string, int)>,
                                   reclaimed: seq<seq<int>>)

  datatype RecoveryError = InvalidCheckpoint | CursorExceedsCapacity

  /** `c` is a checkpoint of `s`, with the entries of each dictionary in some order. */
  ghost predicate IsCheckpointOf(c: Checkpoint, s: Ftl) {
    && c.nextPage == s.next
    && Lists(c.mapping, s.mapping, IntToString, EncodePage)
    && Lists(c.invalid, s.invalid, EncodeBlock, (n: int) => n)
    && Lists(c.valid, s.valid, EncodeBlock, SortedSet)
    && Lists(c.erase, s.erase, EncodeBlock, (n: int) => n)
    && c.reclaimed == EncodePages(s.reclaimed)
  }

  function Recover(cfg: Config, c: Checkpoint): Result<Ftl, RecoveryError> {
    var mapping := Load(c.mapping, ParseInt, DecodePage);
    var invalid := Load(c.invalid, DecodeBlock, DecodeCount);
    var valid := Load(c.valid, DecodeBlock, DecodeSet);
    var erase := Load(c.erase, DecodeBlock, DecodeCount);
    var reclaimed := LoadPages(c.reclaimed);
    if mapping.None? || invalid.None? || valid.None? || erase.None? || reclaimed.None? then Err(InvalidCheckpoint)
    else if !(0 <= c.nextPage <= cfg.Capacity()) then Err(CursorExceedsCapacity)
    else Ok(Ftl(cfg, mapping.value, invalid.value, valid.value, erase.value, c.nextPage, reclaimed.value))
  }

  lemma RecoverTables(s: Ftl, c: Checkpoint)
    requires IsCheckpointOf(c, s)
    ensures Load(c.mapping, ParseInt, DecodePage) == Some(s.mapping)
    ensures Load(c.invalid, DecodeBlock, DecodeCount) == Some(s.invalid)
    ensures Load(c.erase, DecodeBlock, DecodeCount) == Some(s.erase)
  {
    forall l: int ensures ParseInt(IntToString(l)) == Some(l) { IntRoundTrip(l); }
    forall b: BlockKey ensures DecodeBlock(EncodeBlock(b)) == Some(b) { BlockRoundTrip(b); }
    LoadListing(c.mapping, s.mapping, IntToString, EncodePage, ParseInt, DecodePage);
    LoadListing(c.invalid, s.invalid, EncodeBlock, (n: int) => n, DecodeBlock, DecodeCount);
    LoadListing(c.erase, s.erase, EncodeBlock, (n: int) => n, DecodeBlock, DecodeCount);
  }

  lemma RecoverIndex(s: Ftl, c: Checkpoint)
    requires IsCheckpointOf(c, s)
    ensures Load(c.valid, DecodeBlock, DecodeSet) == Some(s.valid)
  {
    forall b: BlockKey ensures DecodeBlock(EncodeBlock(b)) == Some(b) { BlockRoundTrip(b); }
    forall v: set<int> ensures DecodeSet(SortedSet(v)) == Some(v) { assert (set x | x in SortedSet(v)) == v; }
    LoadListing(c.valid, s.valid, EncodeBlock, SortedSet, DecodeBlock, DecodeSet);
  }

  /** Recovery returns exactly the checkpointed FTL, whatever the order of the entries, and
      rejects exactly the cursors outside the capacity. */
  lemma RecoverRoundTrip(s: Ftl, c: Checkpoint)
    requires IsCheckpointOf(c, s)
    ensures Recover(s.cfg, c) == if 0 <= s.next <= s.cfg.Capacity() then Ok(s) else Err(CursorExceedsCapacity)
  {
    RecoverTables(s, c);
    RecoverIndex(s, c);
    PagesRoundTrip(s.reclaimed);
  }

  lemma {:induction false} LoadSome<K, V, W>(entries: seq<(string, W)>, key: string -> Option<K>, val: W -> Option<V>)
    ensures Load(entries, key, val).Some? <==> forall i :: 0 <= i < |entries| ==> key(entries[i].0).Some? && val(entries[i].1).Some?
  {
    if entries != [] {
      LoadSome(entries[..|entries| - 1], key, val);
    }
  }

  lemma {:induction false} LoadPagesSome(q: seq<seq<int>>)
    ensures LoadPages(q).Some? <==> forall i :: 0 <= i < |q| ==> |q[i]| == 4
  {
    if q != [] {
      LoadPagesSome(q[1..]);
      assert forall i :: 0 < i < |q| ==> q[i] == q[1..][i - 1];
    }
  }

  ghost predicate BlockKeys<W>(entries: seq<(string, W)>) {
    forall i :: 0 <= i < |entries| ==> DecodeBlock(entries[i].0).Some?
  }

  /** A checkpoint is invalid exactly when some key is not a number or a block, or some page does
      not have four parts; and otherwise refused exactly for its cursor. */
  lemma RecoverRejects(cfg: Config, c: Checkpoint)
    ensures var wellFormed :=
              && (forall i :: 0 <= i < |c.mapping| ==> ParseInt(c.mapping[i].0).Some? && |c.mapping[i].1| == 4)
              && BlockKeys(c.invalid) && BlockKeys(c.valid) && BlockKeys(c.erase)
              && (forall i :: 0 <= i < |c.reclaimed| ==> |c.reclaimed[i]| == 4);
            && (Recover(cfg, c) == Err(InvalidCheckpoint) <==> !wellFormed)
            && (Recover(cfg, c) == Err(CursorExceedsCapacity) <==> wellFormed && !(0 <= c.nextPage <= cfg.Capacity()))
  {
    LoadSome(c.mapping, ParseInt, DecodePage);
    LoadSome(c.invalid, DecodeBlock, DecodeCount);
    LoadSome(c.valid, DecodeBlock, DecodeSet);
    LoadSome(c.erase, DecodeBlock, DecodeCount);
    LoadPagesSome(c.reclaimed);
  }

  /** A recovered FTL, consistent or not, answers every later sequence of writes, reads and
      collections as the original would, and ends in the same state. */
  lemma RecoveredRunsAlike(s: Ftl, c: Checkpoint, ops: seq<Op>)
    requires s.cfg.Valid() && 0 <= s.next <= s.cfg.Capacity() && IsCheckpointOf(c, s)
    ensures Recover(s.cfg, c).Ok? && Recover(s.cfg, c).value.cfg.Valid()
    ensures Run(Recover(s.cfg, c).value, ops) == Run(s, ops)
  {
    RecoverRoundTrip(s, c);
  }

  /** Whatever operations an FTL has gone through since it was made, a checkpoint taken then
      recovers to an FTL that answers every later sequence alike. */
  lemma ReachableRecovers(cfg: Config, past: seq<Op>, c: Checkpoint, ops: seq<Op>)
    requires cfg.Valid() && IsCheckpointOf(c, Run(Fresh(cfg), past).0)
    ensures Recover(cfg, c) == Ok(Run(Fresh(cfg), past).0)
    ensures Run(Recover(cfg, c).value, ops) == Run(Run(Fresh(cfg), past).0, ops)
  {
    FreshInBounds(cfg);
    RunInBounds(Fresh(cfg), past);
    RecoverRoundTrip(Run(Fresh(cfg), past).0, c);
  }
}
