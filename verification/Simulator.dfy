/** The resource-timing model of src/openflash/simulator.py: requests are mapped by the FTL,
    ordered by a scheduler and booked on channels and dies. Times are reals. */
module Simulator {
  import opened Common
  import opened Geometry
  import opened FtlSpec
  import opened FtlBounds
  import opened FtlInvariants
  import FtlCollect
  import opened FtlController
  import opened Scheduler

  datatype Timing = Timing(pageSize: nat, transferGbps: real, readUs: real, programUs: real, eraseUs: real)
  {
    predicate Valid() {
      pageSize > 0 && transferGbps > 0.0 && readUs > 0.0 && programUs > 0.0 && eraseUs > 0.0
    }
  }

  /** Gigabits per second are 125 bytes per microsecond. */
  function TransferTime(t: Timing, pages: nat): real
    requires t.Valid()
  {
    (pages * t.pageSize) as real / (t.transferGbps * 125.0)
  }

  lemma TransferTakesTime(t: Timing, pages: nat)
    requires t.Valid()
    ensures TransferTime(t, pages) >= 0.0 && (pages > 0 ==> TransferTime(t, pages) > 0.0)
  {
    assert pages > 0 ==> pages * t.pageSize > 0;
  }

  /** The bits of the pages, sent at the channel's rate: one gigabit per second is 1000 bits per
      microsecond. */
  lemma TransferRate(t: Timing, pages: nat)
    requires t.Valid()
    ensures TransferTime(t, pages) * (t.transferGbps * 1000.0) == (pages * t.pageSize) as real * 8.0
  {
    var bytes, rate := (pages * t.pageSize) as real, t.transferGbps * 125.0;
    assert TransferTime(t, pages) * rate == bytes;
    assert TransferTime(t, pages) * (rate * 8.0) == TransferTime(t, pages) * rate * 8.0;
  }

  /** A request's place in time: the channel is taken for the transfer, the die until the end. */
  datatype Booking = Booking(item: Item, start: real, transfer: real, media: real)
  {
    function Channel(): int {
      item.physical.channel
    }

    function Die(): int {
      item.physical.die
    }

    function ChannelUntil(): real {
      start + transfer
    }

    function Finish(): real {
      start + transfer + media
    }
  }

  ghost predicate ChannelsApart(b: seq<Booking>) {
    forall i, j :: 0 <= i < j < |b| && b[i].item.physical.channel == b[j].item.physical.channel ==>
      b[i].start + b[i].transfer <= b[j].start
  }

  ghost predicate DiesApart(b: seq<Booking>) {
    forall i, j ::
      && 0 <= i < j < |b|
      && b[i].item.physical.channel == b[j].item.physical.channel && b[i].item.physical.die == b[j].item.physical.die ==>
        b[i].start + b[i].transfer + b[i].media <= b[j].start
  }

  function Max(a: real, b: real): real {
    if a < b then b else a
  }

  /** The time the last booking finishes. */
  function LastFinish(b: seq<Booking>): real {
    if b == [] then 0.0 else Max(LastFinish(b[..|b| - 1]), b[|b| - 1].Finish())
  }

  /** The time channel `c` spends transferring. */
  function BusyTime(b: seq<Booking>, c: int): real {
    if b == [] then 0.0
    else BusyTime(b[..|b| - 1], c) + if b[|b| - 1].Channel() == c then b[|b| - 1].transfer else 0.0
  }

  predicate OnDevice(cfg: Config, x: Item) {
    InGeometry(cfg, x.physical)
  }

  /** No resource is free before the bookings made so far allow it. */
  ghost predicate ReadyTimes(b: seq<Booking>, channelReady: seq<real>, dieReady: seq<seq<real>>) {
    forall i :: 0 <= i < |b| ==>
      var c, d := b[i].Channel(), b[i].Die();
      && 0 <= c < |channelReady| && b[i].ChannelUntil() <= channelReady[c]
      && c < |dieReady| && 0 <= d < |dieReady[c]| && b[i].Finish() <= dieReady[c][d]
  }

  /** A channel has been busy for no longer than it has been in use, and its use ends by the last finish. */
  ghost predicate BusyTimes(b: seq<Booking>, channelReady: seq<real>, channelBusy: seq<real>) {
    && |channelBusy| == |channelReady|
    && forall c :: 0 <= c < |channelReady| ==>
         channelBusy[c] == BusyTime(b, c) && 0.0 <= channelBusy[c] <= channelReady[c] <= LastFinish(b)
  }

  /** The bookings are those of the first requests, none starting before its arrival. */
  ghost predicate Booked(t: Timing, ordered: seq<Item>, media: nat -> real, b: seq<Booking>)
    requires t.Valid()
  {
    && |b| <= |ordered|
    && forall i :: 0 <= i < |b| ==>
         && b[i].item == ordered[i] && b[i].start >= ordered[i].request.arrival
         && b[i].transfer == TransferTime(t, ordered[i].request.pages) && b[i].media == media(i)
  }

  /** A booking waits only for its own arrival or for its channel or die to become free. */
  ghost predicate PromptAt(b: seq<Booking>, i: nat)
    requires i < |b|
  {
    || b[i].start == Max(b[i].item.request.arrival, 0.0)
    || (exists j :: 0 <= j < i && b[j].item.physical.channel == b[i].item.physical.channel && b[j].start + b[j].transfer == b[i].start)
    || (exists j ::
          && 0 <= j < i && b[j].item.physical.channel == b[i].item.physical.channel && b[j].item.physical.die == b[i].item.physical.die
          && b[j].start + b[j].transfer + b[j].media == b[i].start)
  }

  ghost predicate Prompt(b: seq<Booking>) {
    forall i :: 0 <= i < |b| ==> PromptAt(b, i)
  }

  ghost predicate ChannelTight(b: seq<Booking>, c: int, t: real) {
    t == 0.0 || exists j :: 0 <= j < |b| && b[j].Channel() == c && b[j].ChannelUntil() == t
  }

  ghost predicate DieTight(b: seq<Booking>, c: int, d: int, t: real) {
    t == 0.0 || exists j :: 0 <= j < |b| && b[j].Channel() == c && b[j].Die() == d && b[j].Finish() == t
  }

  /** No resource is held longer than the bookings made so far require. */
  ghost predicate Tight(b: seq<Booking>, channelReady: seq<real>, dieReady: seq<seq<real>>) {
    && (forall c :: 0 <= c < |channelReady| ==> ChannelTight(b, c, channelReady[c]))
    && (forall c, d :: 0 <= c < |dieReady| && 0 <= d < |dieReady[c]| ==> DieTight(b, c, d, dieReady[c][d]))
  }

  lemma TightGrows(b: seq<Booking>, x: Booking)
    ensures forall c, t :: ChannelTight(b, c, t) ==> ChannelTight(b + [x], c, t)
    ensures forall c, d, t :: DieTight(b, c, d, t) ==> DieTight(b + [x], c, d, t)
    ensures forall i :: 0 <= i < |b| && PromptAt(b, i) ==> PromptAt(b + [x], i)
    ensures ChannelTight(b + [x], x.Channel(), x.ChannelUntil()) && DieTight(b + [x], x.Channel(), x.Die(), x.Finish())
  {
    var b' := b + [x];
    assert forall j :: 0 <= j < |b| ==> b'[j] == b[j];
    assert b'[|b|] == x;
  }

  lemma BookKeepsTight(b: seq<Booking>, x: Booking, channelReady: seq<real>, dieReady: seq<seq<real>>)
    requires Tight(b, channelReady, dieReady) && Prompt(b)
    requires 0 <= x.Channel() < |channelReady| == |dieReady| && 0 <= x.Die() < |dieReady[x.Channel()]|
    requires x.start == Max(Max(x.item.request.arrival, dieReady[x.Channel()][x.Die()]), channelReady[x.Channel()])
    requires channelReady[x.Channel()] >= 0.0
    ensures Prompt(b + [x])
    ensures Tight(b + [x], channelReady[x.Channel() := x.ChannelUntil()],
                  dieReady[x.Channel() := dieReady[x.Channel()][x.Die() := x.Finish()]])
  {
    TightGrows(b, x);
    StartIsPrompt(b, x, channelReady[x.Channel()], dieReady[x.Channel()][x.Die()]);
  }

  lemma StartIsPrompt(b: seq<Booking>, x: Booking, channel: real, die: real)
    requires ChannelTight(b, x.Channel(), channel) && DieTight(b, x.Channel(), x.Die(), die)
    requires x.start == Max(Max(x.item.request.arrival, die), channel) && channel >= 0.0
    ensures PromptAt(b + [x], |b|)
  {
    var b' := b + [x];
    assert forall j :: 0 <= j < |b| ==> b'[j] == b[j];
    assert b'[|b|] == x;
  }

  lemma BookKeepsApart(b: seq<Booking>, x: Booking, channelReady: seq<real>, dieReady: seq<seq<real>>)
    requires ChannelsApart(b) && DiesApart(b) && ReadyTimes(b, channelReady, dieReady)
    requires 0 <= x.Channel() < |channelReady| == |dieReady| && 0 <= x.Die() < |dieReady[x.Channel()]|
    requires channelReady[x.Channel()] <= x.start && dieReady[x.Channel()][x.Die()] <= x.start && x.transfer >= 0.0 && x.media >= 0.0
    ensures ChannelsApart(b + [x]) && DiesApart(b + [x])
    ensures ReadyTimes(b + [x], channelReady[x.Channel() := x.ChannelUntil()],
                       dieReady[x.Channel() := dieReady[x.Channel()][x.Die() := x.Finish()]])
  {
  }

  lemma BookKeepsBusy(b: seq<Booking>, x: Booking, channelReady: seq<real>, channelBusy: seq<real>)
    requires BusyTimes(b, channelReady, channelBusy) && 0 <= x.Channel() < |channelReady|
    requires channelReady[x.Channel()] <= x.start && x.transfer >= 0.0 && x.media >= 0.0
    ensures BusyTimes(b + [x], channelReady[x.Channel() := x.ChannelUntil()],
                      channelBusy[x.Channel() := channelBusy[x.Channel()] + x.transfer])
  {
    assert (b + [x])[..|b|] == b;
  }

  /** The ready times of channels and dies, and how long each channel has been busy. */
  datatype Tables = Tables(channelReady: seq<real>, channelBusy: seq<real>, dieReady: seq<seq<real>>)
  {
    predicate Fits(cfg: Config) {
      && |channelReady| == |channelBusy| == |dieReady| == cfg.channels
      && forall c :: 0 <= c < cfg.channels ==> |dieReady[c]| == cfg.diesPerChannel
    }

    function Start(item: Item): real
      requires 0 <= item.physical.channel < |channelReady| == |dieReady| && 0 <= item.physical.die < |dieReady[item.physical.channel]|
    {
      Max(Max(item.request.arrival, dieReady[item.physical.channel][item.physical.die]), channelReady[item.physical.channel])
    }

    function Book(x: Booking): Tables
      requires 0 <= x.Channel() < |channelReady| == |channelBusy| == |dieReady| && 0 <= x.Die() < |dieReady[x.Channel()]|
    {
      var c := x.Channel();
      Tables(channelReady[c := x.ChannelUntil()], channelBusy[c := channelBusy[c] + x.transfer],
             dieReady[c := dieReady[c][x.Die() := x.Finish()]])
    }
  }

  function NoBookings(cfg: Config): (tables: Tables)
    requires cfg.Valid()
    ensures tables.Fits(cfg)
  {
    Tables(seq(cfg.channels, _ => 0.0), seq(cfg.channels, _ => 0.0), seq(cfg.channels, _ => seq(cfg.diesPerChannel, _ => 0.0)))
  }

  predicate Bookable(cfg: Config, t: Timing, ordered: seq<Item>) {
    cfg.Valid() && t.Valid() && forall i :: 0 <= i < |ordered| ==> OnDevice(cfg, ordered[i])
  }

  /** The bookings of `ordered`, each starting as early as its arrival and its resources allow. */
  function Bookings(cfg: Config, t: Timing, ordered: seq<Item>, media: nat -> real): (r: (seq<Booking>, Tables))
    requires Bookable(cfg, t, ordered)
    ensures |r.0| == |ordered| && r.1.Fits(cfg)
  {
    if ordered == [] then ([], NoBookings(cfg))
    else
      var n := |ordered| - 1;
      var (b, tables) := Bookings(cfg, t, ordered[..n], media);
      var item := ordered[n];
      assert OnDevice(cfg, item);
      var x := Booking(item, tables.Start(item), TransferTime(t, item.request.pages), media(n));
      (b + [x], tables.Book(x))
  }

  lemma {:induction false} EachBooked(cfg: Config, t: Timing, ordered: seq<Item>, media: nat -> real)
    requires Bookable(cfg, t, ordered)
    ensures Booked(t, ordered, media, Bookings(cfg, t, ordered, media).0)
  {
    if ordered != [] {
      EachBooked(cfg, t, ordered[..|ordered| - 1], media);
    }
  }

  /** What the tables say about the bookings made so far. */
  ghost predicate Tracked(b: seq<Booking>, tables: Tables) {
    && ChannelsApart(b) && DiesApart(b) && ReadyTimes(b, tables.channelReady, tables.dieReady)
    && BusyTimes(b, tables.channelReady, tables.channelBusy)
    && Prompt(b) && Tight(b, tables.channelReady, tables.dieReady)
  }

  lemma TrackNext(cfg: Config, b: seq<Booking>, tables: Tables, x: Booking)
    requires Tracked(b, tables) && tables.Fits(cfg) && OnDevice(cfg, x.item)
    requires x.start == tables.Start(x.item) && x.transfer >= 0.0 && x.media >= 0.0
    ensures Tracked(b + [x], tables.Book(x))
  {
    BookKeepsApart(b, x, tables.channelReady, tables.dieReady);
    BookKeepsBusy(b, x, tables.channelReady, tables.channelBusy);
    BookKeepsTight(b, x, tables.channelReady, tables.dieReady);
  }

  lemma NothingTracked(cfg: Config)
    requires cfg.Valid()
    ensures Tracked([], NoBookings(cfg))
  {
  }

  /** No channel and no die is booked twice at a time, no booking waits without need, and the busy
      times are those of the bookings. */
  lemma {:induction false} BookingsTracked(cfg: Config, t: Timing, ordered: seq<Item>, media: nat -> real)
    requires Bookable(cfg, t, ordered) && forall i :: media(i) >= 0.0
    ensures var (b, tables) := Bookings(cfg, t, ordered, media); Tracked(b, tables)
  {
    if ordered == [] {
      NothingTracked(cfg);
    } else {
      var n := |ordered| - 1;
      BookingsTracked(cfg, t, ordered[..n], media);
      var (b, tables) := Bookings(cfg, t, ordered[..n], media);
      var item := ordered[n];
      assert OnDevice(cfg, item);
      TransferTakesTime(t, item.request.pages);
      TrackNext(cfg, b, tables, Booking(item, tables.Start(item), TransferTime(t, item.request.pages), media(n)));
    }
  }

  /** The timing loop: `media(i)` is the media latency of the i-th request in order. */
  method BookAll(cfg: Config, t: Timing, ordered: seq<Item>, media: nat -> real) returns (b: seq<Booking>, channelBusy: seq<real>)
    requires Bookable(cfg, t, ordered)
    ensures b == Bookings(cfg, t, ordered, media).0 && channelBusy == Bookings(cfg, t, ordered, media).1.channelBusy
  {
    var dieReady := seq(cfg.channels, _ => seq(cfg.diesPerChannel, _ => 0.0));
    var channelReady := seq(cfg.channels, _ => 0.0);
    channelBusy := seq(cfg.channels, _ => 0.0);
    b := [];
    assert Tables(channelReady, channelBusy, dieReady) == NoBookings(cfg);
    for n := 0 to |ordered|
      invariant Bookings(cfg, t, ordered[..n], media) == (b, Tables(channelReady, channelBusy, dieReady))
    {
      assert ordered[..n + 1][..n] == ordered[..n];
      var item := ordered[n];
      assert OnDevice(cfg, item);
      var channel, die := item.physical.channel, item.physical.die;
      var start := Max(Max(item.request.arrival, dieReady[channel][die]), channelReady[channel]);
      var transfer := TransferTime(t, item.request.pages);
      channelReady := channelReady[channel := start + transfer];
      channelBusy := channelBusy[channel := channelBusy[channel] + transfer];
      dieReady := dieReady[channel := dieReady[channel][die := start + transfer + media(n)]];
      b := b + [Booking(item, start, transfer, media(n))];
    }
    assert ordered[..|ordered|] == ordered;
  }

  // ----- utilization

  function Sum(q: seq<real>): real {
    if q == [] then 0.0 else Sum(q[..|q| - 1]) + q[|q| - 1]
  }

  lemma {:induction false} SumBound(q: seq<real>, m: real)
    requires forall i :: 0 <= i < |q| ==> 0.0 <= q[i] <= m
    ensures 0.0 <= Sum(q) <= |q| as real * m
  {
    if q != [] {
      SumBound(q[..|q| - 1], m);
      assert |q| as real * m == (|q| - 1) as real * m + m;
    }
  }

  /** All transfer time booked. */
  function TransferSum(b: seq<Booking>): real {
    if b == [] then 0.0 else TransferSum(b[..|b| - 1]) + b[|b| - 1].transfer
  }

  lemma {:induction false} SumUpdate(q: seq<real>, c: nat, x: real)
    requires c < |q|
    ensures Sum(q[c := q[c] + x]) == Sum(q) + x
  {
    var n := |q| - 1;
    if c < n {
      SumUpdate(q[..n], c, x);
      assert q[c := q[c] + x][..n] == q[..n][c := q[c] + x];
    } else {
      assert q[c := q[c] + x][..n] == q[..n];
    }
  }

  lemma {:induction false} SumZeros(n: nat)
    ensures Sum(seq(n, _ => 0.0)) == 0.0
  {
    if n > 0 {
      SumZeros(n - 1);
      var zeros := seq(n, _ => 0.0);
      assert zeros[..n - 1] == seq(n - 1, _ => 0.0);
    }
  }

  /** The channels' busy times add up to the transfer time of all bookings. */
  lemma {:induction false} BusySum(cfg: Config, t: Timing, ordered: seq<Item>, media: nat -> real)
    requires Bookable(cfg, t, ordered)
    ensures var (b, tables) := Bookings(cfg, t, ordered, media); Sum(tables.channelBusy) == TransferSum(b)
  {
    if ordered == [] {
      SumZeros(cfg.channels);
    } else {
      var n := |ordered| - 1;
      var item := ordered[n];
      BusySum(cfg, t, ordered[..n], media);
      var (b, tables) := Bookings(cfg, t, ordered[..n], media);
      assert OnDevice(cfg, item);
      var x := Booking(item, tables.Start(item), TransferTime(t, item.request.pages), media(n));
      SumUpdate(tables.channelBusy, x.Channel(), x.transfer);
      OneMoreTransfer(b, x);
    }
  }

  lemma OneMoreTransfer(b: seq<Booking>, x: Booking)
    ensures TransferSum(b + [x]) == TransferSum(b) + x.transfer
  {
    assert (b + [x])[..|b|] == b;
  }

  lemma {:induction false} FinishBound(b: seq<Booking>, i: nat)
    requires i < |b|
    ensures b[i].Finish() <= LastFinish(b)
  {
    if i < |b| - 1 {
      FinishBound(b[..|b| - 1], i);
    }
  }

  lemma FractionBound(part: real, elapsed: real, channels: int)
    requires 0.0 <= part <= channels as real * elapsed && elapsed > 0.0 && channels > 0
    ensures elapsed * channels as real > 0.0 && 0.0 <= part / (elapsed * channels as real) <= 1.0
  {
    var whole := elapsed * channels as real;
    var u := part / whole;
    assert u * whole == part;
    assert u > 1.0 ==> u * whole > whole;
    assert u < 0.0 ==> u * whole < 0.0;
  }

  /** Media time of the garbage collections. */
  function GcCharge(t: Timing, events: nat, moved: nat): real {
    events as real * t.eraseUs + moved as real * (t.readUs + t.programUs)
  }

  /** Each collection costs an erase, and each page it moves a read and a program. */
  lemma ChargeAdds(t: Timing, events: nat, moved: nat)
    ensures GcCharge(t, 0, 0) == 0.0
    ensures GcCharge(t, events + 1, moved) == GcCharge(t, events, moved) + t.eraseUs
    ensures GcCharge(t, events, moved + 1) == GcCharge(t, events, moved) + t.readUs + t.programUs
  {
    assert (events + 1) as real * t.eraseUs == events as real * t.eraseUs + t.eraseUs;
    var move := t.readUs + t.programUs;
    assert (moved + 1) as real * move == moved as real * move + move;
  }

  /** The last finish is the finish of some booking. */
  lemma {:induction false} LastIsOne(b: seq<Booking>)
    requires b != [] && forall i :: 0 <= i < |b| ==> b[i].Finish() >= 0.0
    ensures exists i :: 0 <= i < |b| && b[i].Finish() == LastFinish(b)
  {
    var n := |b| - 1;
    if n > 0 {
      LastIsOne(b[..n]);
      var i :| 0 <= i < n && b[..n][i].Finish() == LastFinish(b[..n]);
      assert b[i].Finish() == LastFinish(b[..n]);
      assert LastFinish(b) == b[i].Finish() || LastFinish(b) == b[n].Finish();
    } else {
      assert LastFinish(b) == b[0].Finish();
    }
  }

  /** The channels' busy times belong to the bookings, and the run takes time. */
  ghost predicate BusyOk(cfg: Config, b: seq<Booking>, busy: seq<real>) {
    && |busy| == cfg.channels && b != [] && b[0].Finish() > 0.0
    && Sum(busy) == TransferSum(b) && forall c :: 0 <= c < cfg.channels ==> 0.0 <= busy[c] <= LastFinish(b)
  }

  /** The run ends with the last booking plus the collections' share, and utilization is the part of
      the channels' time spent on the bookings' transfers. */
  ghost predicate TimesOk(cfg: Config, t: Timing, events: nat, moved: nat, b: seq<Booking>, elapsed: real, utilization: real)
    requires cfg.Valid()
  {
    && elapsed == LastFinish(b) + GcCharge(t, events, moved) / cfg.Dies() as real && elapsed > 0.0
    && 0.0 <= utilization <= 1.0 && utilization * (elapsed * cfg.channels as real) == TransferSum(b)
  }

  /** Elapsed time and the reported channel utilization; collection is charged as serialized
      background media work spread over the dies. */
  method Utilization(cfg: Config, t: Timing, b: seq<Booking>, channelBusy: seq<real>, gcEvents: nat, gcPagesMoved: nat)
    returns (elapsed: real, utilization: real)
    requires cfg.Valid() && t.Valid() && BusyOk(cfg, b, channelBusy)
    ensures TimesOk(cfg, t, gcEvents, gcPagesMoved, b, elapsed, utilization)
  {
    var gcMedia := GcCharge(t, gcEvents, gcPagesMoved);
    ChargeIsPositive(gcEvents as real, t.eraseUs, gcPagesMoved as real, t.readUs + t.programUs, cfg.Dies() as real);
    var last := FindLast(b);
    FinishBound(b, 0);
    SumBound(channelBusy, last);
    var share := gcMedia / cfg.Dies() as real;
    elapsed := last + share;
    utilization := Fraction(Sum(channelBusy), last, share, cfg.channels);
  }

  method Fraction(busy: real, last: real, share: real, channels: int) returns (utilization: real)
    requires channels > 0 && last > 0.0 && share >= 0.0 && 0.0 <= busy <= channels as real * last
    ensures 0.0 <= utilization <= 1.0 && utilization * ((last + share) * channels as real) == busy
  {
    var elapsed := last + share;
    assert channels as real * last <= channels as real * elapsed;
    FractionBound(busy, elapsed, channels);
    utilization := busy / (elapsed * channels as real);
  }

  method FindLast(b: seq<Booking>) returns (last: real)
    ensures last == LastFinish(b)
  {
    last := 0.0;
    for i := 0 to |b|
      invariant last == LastFinish(b[..i])
    {
      last := Max(last, b[i].Finish());
      assert b[..i + 1][..i] == b[..i];
    }
    assert b[..|b|] == b;
  }

  lemma ChargeIsPositive(events: real, erase: real, moved: real, move: real, dies: real)
    requires events >= 0.0 && erase >= 0.0 && moved >= 0.0 && move >= 0.0 && dies > 0.0
    ensures (events * erase + moved * move) / dies >= 0.0
  {
    var charge := events * erase + moved * move;
    assert charge >= 0.0;
    assert charge / dies * dies == charge;
  }

  // ----- the whole run

  datatype RunError = NoRequests | OutOfSpace(error: FtlError)

  /** `mapped[i]` is the i-th request with the page it was directed to. */
  datatype Report = Report(mapped: seq<Item>, bookings: seq<Booking>, elapsed: real, utilization: real)

  ghost predicate MapsTo(cfg: Config, requests: seq<IoRequest>, mapped: seq<Item>, n: nat) {
    n <= |requests| && |mapped| == n && forall i :: 0 <= i < n ==> mapped[i].request == requests[i] && OnDevice(cfg, mapped[i])
  }

  /** The state and the pages chosen so far, the error that ended the mapping if one did, and the
      garbage collection that the writes caused. */
  datatype Served = Served(state: Ftl, items: seq<Item>, failed: Option<FtlError>, events: nat, moved: nat)

  /** Direct one request to a page; a write may have to collect first. */
  ghost function Serve(v: Served, q: IoRequest): Served
    requires v.state.cfg.Valid()
  {
    if v.failed.Some? then v
    else if q.op.Read? then v.(items := v.items + [Item(q, MapRead(v.state, q.lpn))])
    else if !NeedsGc(v.state) then Assign(v, q)
    else
      FtlCollect.StepKeepsConfig(v.state, FtlCollect.GcOp);
      var gc := Collect(v.state);
      if gc.result.Err? then v.(state := gc.state, failed := Some(gc.result.error))
      else Assign(v.(state := gc.state, events := v.events + 1, moved := v.moved + gc.result.value.pagesMoved), q)
  }

  function Assign(v: Served, q: IoRequest): Served
    requires v.state.cfg.Valid()
  {
    var o := FtlSpec.Write(v.state, q.lpn);
    if o.result.Err? then v.(state := o.state, failed := Some(o.result.error))
    else v.(state := o.state, items := v.items + [Item(q, o.result.value)])
  }

  ghost function ServeAll(s: Ftl, requests: seq<IoRequest>): (v: Served)
    requires s.cfg.Valid()
    ensures v.state.cfg == s.cfg
  {
    if requests == [] then Served(s, [], None, 0, 0)
    else
      var n := |requests| - 1;
      var before := ServeAll(s, requests[..n]);
      ServeKeepsConfig(before, requests[n]);
      Serve(before, requests[n])
  }

  lemma ServeKeepsConfig(v: Served, q: IoRequest)
    requires v.state.cfg.Valid()
    ensures Serve(v, q).state.cfg == v.state.cfg
  {
    FtlCollect.StepKeepsConfig(v.state, FtlCollect.GcOp);
    AssignKeepsConfig(v, q);
    if !q.op.Read? && NeedsGc(v.state) && Collect(v.state).result.Ok? {
      var gc := Collect(v.state);
      AssignKeepsConfig(v.(state := gc.state, events := v.events + 1, moved := v.moved + gc.result.value.pagesMoved), q);
    }
  }

  lemma AssignKeepsConfig(v: Served, q: IoRequest)
    requires v.state.cfg.Valid()
    ensures Assign(v, q).state.cfg == v.state.cfg
  {
  }

  /** `w` extends `v` by the answer to `q`, or by an error. */
  ghost predicate Answers(v: Served, q: IoRequest, w: Served) {
    && InBounds(w.state) && w.state.cfg == v.state.cfg
    && (w.failed.None? ==> exists p :: InGeometry(v.state.cfg, p) && w.items == v.items + [Item(q, p)])
  }

  lemma AssignInBounds(v: Served, q: IoRequest)
    requires InBounds(v.state) && v.failed.None?
    ensures Answers(v, q, Assign(v, q))
  {
    WriteInBounds(v.state, q.lpn);
    AssignKeepsConfig(v, q);
  }

  /** Serving keeps the FTL's tables in bounds and directs every request to a page of the device. */
  lemma ServeInBounds(v: Served, q: IoRequest)
    requires InBounds(v.state) && v.failed.None?
    ensures Answers(v, q, Serve(v, q))
  {
    if q.op.Read? {
      MapReadInBounds(v.state, q.lpn);
    } else if !NeedsGc(v.state) {
      AssignInBounds(v, q);
    } else {
      CollectInBounds(v.state);
      FtlCollect.StepKeepsConfig(v.state, FtlCollect.GcOp);
      var gc := Collect(v.state);
      if gc.result.Ok? {
        AssignInBounds(v.(state := gc.state, events := v.events + 1, moved := v.moved + gc.result.value.pagesMoved), q);
      }
    }
  }

  /** A failure ends the mapping. */
  lemma {:induction false} ServeStops(s: Ftl, requests: seq<IoRequest>, k: nat)
    requires s.cfg.Valid() && k <= |requests| && ServeAll(s, requests[..k]).failed.Some?
    ensures ServeAll(s, requests) == ServeAll(s, requests[..k])
    decreases |requests|
  {
    if k < |requests| {
      var n := |requests| - 1;
      assert requests[..n][..k] == requests[..k];
      ServeStops(s, requests[..n], k);
    } else {
      assert requests[..k] == requests;
    }
  }

  method MapOne(ftl: PageMappingFTL, request: IoRequest, ghost v: Served) returns (page: Result<PhysicalPage, FtlError>, events: nat, moved: nat)
    requires ftl.cfg.Valid() && v.state == ftl.State() && v.failed.None?
    modifies ftl
    ensures var w := Serve(v, request);
            && w.state == ftl.State() && w.events == v.events + events && w.moved == v.moved + moved
            && (if page.Ok? then w.failed.None? && w.items == v.items + [Item(request, page.value)]
                else w.failed == Some(page.error) && w.items == v.items)
  {
    events, moved := 0, 0;
    if request.op.Read? {
      return Ok(MapRead(ftl.State(), request.lpn)), 0, 0;
    }
    ghost var u := v;
    if NeedsGc(ftl.State()) {
      ServeCollects(v, request);
      var gc := ftl.GarbageCollect();
      if gc.Err? {
        return Err(gc.error), 0, 0;
      }
      events, moved := 1, gc.value.pagesMoved;
      u := v.(state := ftl.State(), events := v.events + 1, moved := v.moved + gc.value.pagesMoved);
    }
    assert Serve(v, request) == Assign(u, request);
    page := AssignOne(ftl, request, u);
  }

  method AssignOne(ftl: PageMappingFTL, request: IoRequest, ghost v: Served) returns (page: Result<PhysicalPage, FtlError>)
    requires ftl.cfg.Valid() && v.state == ftl.State() && v.failed.None?
    modifies ftl
    ensures var w := Assign(v, request);
            && w.state == ftl.State() && w.events == v.events && w.moved == v.moved
            && (if page.Ok? then w.failed.None? && w.items == v.items + [Item(request, page.value)]
                else w.failed == Some(page.error) && w.items == v.items)
  {
    page := ftl.WritePage(request.lpn);
  }

  lemma ServeCollects(v: Served, q: IoRequest)
    requires v.state.cfg.Valid() && v.failed.None? && !q.op.Read? && NeedsGc(v.state)
    ensures var gc := Collect(v.state);
            && gc.state.cfg == v.state.cfg
            && Serve(v, q) == if gc.result.Err? then v.(state := gc.state, failed := Some(gc.result.error))
                              else Assign(v.(state := gc.state, events := v.events + 1, moved := v.moved + gc.result.value.pagesMoved), q)
  {
    FtlCollect.StepKeepsConfig(v.state, FtlCollect.GcOp);
  }

  /** What a write that must collect first adds to the counts: one collection and the live pages of the
      block with the victim key; every other request adds nothing. */
  lemma ServeCounts(v: Served, q: IoRequest)
    requires Consistent(v.state) && v.failed.None?
    ensures var s, w := v.state, Serve(v, q);
            if !q.op.Read? && FreePages(s) <= s.cfg.gcLowWatermarkBlocks * s.cfg.pagesPerBlock && s.invalid != map[] && Collect(s).result.Ok? then
              Candidates(s) != {} && w.events == v.events + 1 && w.moved == v.moved + |LiveAt(s, Victim(s))|
            else w.events == v.events && w.moved == v.moved
  {
    if !q.op.Read? && NeedsGc(v.state) {
      ServeCollects(v, q);
      if Collect(v.state).result.Ok? { FtlCollect.CollectEffect(v.state, Victim(v.state)); }
    }
  }

  lemma ServeAllNext(s: Ftl, requests: seq<IoRequest>, i: nat)
    requires s.cfg.Valid() && i < |requests|
    ensures ServeAll(s, requests[..i + 1]) == Serve(ServeAll(s, requests[..i]), requests[i])
  {
    assert requests[..i + 1][..i] == requests[..i];
  }

  lemma MapsToNext(cfg: Config, requests: seq<IoRequest>, i: nat, v: Served, w: Served)
    requires i < |requests| && v.state.cfg == cfg && MapsTo(cfg, requests, v.items, i) && Answers(v, requests[i], w) && w.failed.None?
    ensures MapsTo(cfg, requests, w.items, i + 1)
  {
  }

  method MapAll(ftl: PageMappingFTL, requests: seq<IoRequest>) returns (mapped: Result<seq<Item>, FtlError>, gcEvents: nat, gcPagesMoved: nat)
    requires InBounds(ftl.State())
    modifies ftl
    ensures InBounds(ftl.State()) && (mapped.Ok? ==> MapsTo(ftl.cfg, requests, mapped.value, |requests|))
    ensures var v := ServeAll(old(ftl.State()), requests);
            && ftl.State() == v.state && gcEvents == v.events && gcPagesMoved == v.moved
            && mapped == if v.failed.Some? then Err(v.failed.value) else Ok(v.items)
  {
    var items: seq<Item> := [];
    ghost var s := ftl.State();
    ghost var v := Served(s, [], None, 0, 0);
    gcEvents, gcPagesMoved := 0, 0;
    for i := 0 to |requests|
      invariant InBounds(v.state) && v.state.cfg == s.cfg && MapsTo(s.cfg, requests, v.items, i)
      invariant v == ServeAll(s, requests[..i]) && v == Served(ftl.State(), items, None, gcEvents, gcPagesMoved)
    {
      ServeAllNext(s, requests, i);
      ServeInBounds(v, requests[i]);
      ghost var w := Serve(v, requests[i]);
      if w.failed.None? { MapsToNext(s.cfg, requests, i, v, w); }
      var page, events, moved := MapOne(ftl, requests[i], v);
      v := w;
      gcEvents, gcPagesMoved := gcEvents + events, gcPagesMoved + moved;
      if page.Err? {
        ServeStops(s, requests, i + 1);
        return Err(page.error), gcEvents, gcPagesMoved;
      }
      items := items + [Item(requests[i], page.value)];
    }
    assert requests[..|requests|] == requests;
    mapped := Ok(items);
  }

  lemma OrderedOnDevice(cfg: Config, mapped: seq<Item>, ordered: seq<Item>)
    requires multiset(ordered) == multiset(mapped) && forall x :: x in mapped ==> OnDevice(cfg, x)
    ensures forall i :: 0 <= i < |ordered| ==> OnDevice(cfg, ordered[i])
  {
    forall i | 0 <= i < |ordered|
      ensures OnDevice(cfg, ordered[i])
    {
      assert ordered[i] in multiset(mapped);
    }
  }

  /** What a finished run promises: `v` is what serving the requests gave, `ordered` the
      scheduler's order of it. */
  ghost predicate RunOk(cfg: Config, t: Timing, media: nat -> real, requests: seq<IoRequest>, v: Served, ordered: seq<Item>, r: Report)
    requires cfg.Valid() && t.Valid()
  {
    && r.mapped == v.items && MapsTo(cfg, requests, r.mapped, |requests|) && multiset(ordered) == multiset(r.mapped)
    && BookedWell(t, ordered, media, r.bookings)
    && TimesOk(cfg, t, v.events, v.moved, r.bookings, r.elapsed, r.utilization)
  }

  /** Every item in order has its own booking, with no overlap and no needless wait. */
  ghost predicate BookedWell(t: Timing, ordered: seq<Item>, media: nat -> real, b: seq<Booking>)
    requires t.Valid()
  {
    && |b| == |ordered| && Booked(t, ordered, media, b)
    && ChannelsApart(b) && DiesApart(b) && Prompt(b)
  }

  method OrderItems(readPriority: bool, limit: int, mapped: seq<Item>) returns (ordered: seq<Item>)
    ensures ordered == if readPriority then ReadPriorityOrder(mapped, limit) else Sort(mapped)
    ensures multiset(ordered) == multiset(mapped)
  {
    if readPriority {
      ordered := OrderByReadPriority(mapped, limit);
      ReadPriorityKeepsOrder(mapped, limit);
    } else {
      ordered := Sort(mapped);
      SortCorrect(mapped);
    }
  }

  /** For every workload, policy and media latency: each request gets exactly one booking, no
      channel or die is booked twice at a time, and the reported utilization is at most 1. */
  method RunAll(ftl: PageMappingFTL, t: Timing, requests: seq<IoRequest>, readPriority: bool, limit: int, media: nat -> real)
    returns (r: Result<Report, RunError>)
    requires InBounds(ftl.State()) && t.Valid() && forall i :: media(i) >= 0.0
    requires forall q :: q in requests ==> q.pages > 0 && q.arrival >= 0.0
    modifies ftl
    ensures InBounds(ftl.State())
    ensures requests == [] ==> r == Err(NoRequests)
    ensures var v := ServeAll(old(ftl.State()), requests);
            requests != [] ==>
              && ftl.State() == v.state
              && (r.Err? <==> v.failed.Some?) && (r.Err? ==> r.error == OutOfSpace(v.failed.value))
              && (r.Ok? ==> RunOk(ftl.cfg, t, media, requests, v, if readPriority then ReadPriorityOrder(v.items, limit) else Sort(v.items), r.value))
  {
    if requests == [] {
      return Err(NoRequests);
    }
    var mapped, gcEvents, gcPagesMoved := MapAll(ftl, requests);
    if mapped.Err? {
      return Err(OutOfSpace(mapped.error));
    }
    var report := TimeAll(ftl.cfg, t, requests, mapped.value, readPriority, limit, media, gcEvents, gcPagesMoved,
                          ServeAll(old(ftl.State()), requests));
    r := Ok(report);
  }

  /** Order the mapped requests, book them and report. */
  method TimeAll(cfg: Config, t: Timing, ghost requests: seq<IoRequest>, mapped: seq<Item>, readPriority: bool, limit: int,
                 media: nat -> real, gcEvents: nat, gcPagesMoved: nat, ghost v: Served) returns (r: Report)
    requires cfg.Valid() && t.Valid() && requests != [] && MapsTo(cfg, requests, mapped, |requests|) && forall i :: media(i) >= 0.0
    requires forall q :: q in requests ==> q.pages > 0 && q.arrival >= 0.0
    requires v.items == mapped && v.events == gcEvents && v.moved == gcPagesMoved
    ensures RunOk(cfg, t, media, requests, v, if readPriority then ReadPriorityOrder(mapped, limit) else Sort(mapped), r)
  {
    var ordered := OrderItems(readPriority, limit, mapped);
    var b, busy := BookItems(cfg, t, requests, mapped, ordered, media);
    var elapsed, utilization := Utilization(cfg, t, b, busy, gcEvents, gcPagesMoved);
    r := Report(mapped, b, elapsed, utilization);
  }

  method BookItems(cfg: Config, t: Timing, ghost requests: seq<IoRequest>, ghost mapped: seq<Item>, ordered: seq<Item>, media: nat -> real)
    returns (b: seq<Booking>, busy: seq<real>)
    requires cfg.Valid() && t.Valid() && requests != [] && MapsTo(cfg, requests, mapped, |requests|) && forall i :: media(i) >= 0.0
    requires forall q :: q in requests ==> q.pages > 0 && q.arrival >= 0.0
    requires multiset(ordered) == multiset(mapped)
    ensures BookedWell(t, ordered, media, b) && BusyOk(cfg, b, busy)
  {
    OrderedOnDevice(cfg, mapped, ordered);
    b, busy := BookAll(cfg, t, ordered, media);
    ItemsBooked(cfg, t, ordered, media);
    FirstFinishes(t, requests, mapped, ordered, b);
    BusyFollows(cfg, t, ordered, media);
  }

  lemma ItemsBooked(cfg: Config, t: Timing, ordered: seq<Item>, media: nat -> real)
    requires Bookable(cfg, t, ordered) && forall i :: media(i) >= 0.0
    ensures BookedWell(t, ordered, media, Bookings(cfg, t, ordered, media).0)
  {
    EachBooked(cfg, t, ordered, media);
    BookingsTracked(cfg, t, ordered, media);
  }

  lemma BusyFollows(cfg: Config, t: Timing, ordered: seq<Item>, media: nat -> real)
    requires Bookable(cfg, t, ordered) && forall i :: media(i) >= 0.0
    requires var b := Bookings(cfg, t, ordered, media).0; b != [] && b[0].Finish() > 0.0
    ensures var (b, tables) := Bookings(cfg, t, ordered, media); BusyOk(cfg, b, tables.channelBusy)
  {
    BookingsTracked(cfg, t, ordered, media);
    BusySum(cfg, t, ordered, media);
  }

  /** The first booking takes time, so the run does. */
  lemma FirstFinishes(t: Timing, requests: seq<IoRequest>, mapped: seq<Item>, ordered: seq<Item>, b: seq<Booking>)
    requires t.Valid() && requests != [] && |mapped| == |requests| && multiset(ordered) == multiset(mapped) && |b| == |ordered|
    requires forall i :: 0 <= i < |mapped| ==> mapped[i].request == requests[i]
    requires forall q :: q in requests ==> q.pages > 0 && q.arrival >= 0.0
    requires forall i :: 0 <= i < |b| ==> b[i].start >= ordered[i].request.arrival && b[i].media >= 0.0 && b[i].transfer == TransferTime(t, ordered[i].request.pages)
    ensures b != [] && b[0].Finish() > 0.0
  {
    assert |ordered| == |multiset(ordered)| == |multiset(mapped)| == |mapped|;
    assert ordered[0] in multiset(mapped);
    var i :| 0 <= i < |mapped| && mapped[i] == ordered[0];
    assert requests[i] in requests;
    TransferTakesTime(t, ordered[0].request.pages);
  }
}
