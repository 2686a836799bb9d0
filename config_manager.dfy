/** The installation-config validator of `config_manager.py`: DMX start
    address range, overlapping fixture addresses, the 512-channel total,
    pixel counts, and the shape of the top-level entries.

    A fixture is reduced to the two values the validator reads; a
    `channel_mode` that `int()` cannot parse is `None`. */
module InstallConfig {
  import opened Wrappers

  const UniverseSize: int := 512
  const MaxPixelCount: int := 1024

  /** One `dmx_fixtures` entry: `start_address` (missing reads as 0) and
      `int(channel_mode)` (missing reads as "1"; unparsable is `None`). */
  datatype Fixture = Fixture(startAddress: int, channelMode: Option<int>)

  /** One `pixel_channels` entry: `output_id` and `pixel_count` (missing
      reads as 0). */
  datatype PixelEntry = PixelEntry(outputId: Option<int>, pixelCount: int)

  datatype ConfigError =
    | StartOutOfRange(start: int)
    | DuplicateAddress(address: int)
    | ChannelOverflow(total: int)
    | PixelCountOutOfRange(outputId: Option<int>, count: int)
    | BadStage
    | BadFixtures
    | BadPixels

  // ------------------------------------------------------------- fixtures

  /** The channel count: the parsed mode, or 1 when it does not parse. */
  function Channels(fx: Fixture): int
  {
    fx.channelMode.GetOr(1)
  }

  function MinInt(a: int, b: int): int
  {
    if a <= b then a else b
  }

  /** `range(lo, hi)` */
  function Range(lo: int, hi: int): (r: seq<int>)
    ensures |r| == if lo < hi then hi - lo else 0
    ensures forall i :: 0 <= i < |r| ==> r[i] == lo + i
  {
    if lo < hi then seq(hi - lo, i => lo + i) else []
  }

  /** The addresses a fixture claims: from its start to the last channel,
      cut off at 512. */
  function Addresses(fx: Fixture): (r: seq<int>)
    ensures forall a :: a in r <==> fx.startAddress <= a < MinInt(UniverseSize + 1, fx.startAddress + Channels(fx))
  {
    var r := Range(fx.startAddress, MinInt(UniverseSize + 1, fx.startAddress + Channels(fx)));
    forall a | fx.startAddress <= a < MinInt(UniverseSize + 1, fx.startAddress + Channels(fx))
      ensures a in r
    {
      assert r[a - fx.startAddress] == a;
    }
    r
  }

  predicate NoDup(s: seq<int>)
  {
    forall i, j :: 0 <= i < j < |s| ==> s[i] != s[j]
  }

  /** Claiming `addrs` one by one against the list `used`: an address
      already used adds a duplicate error, a new one is appended. Returns
      the new errors and the new list. */
  function Claim(used: seq<int>, addrs: seq<int>): (r: (seq<ConfigError>, seq<int>))
  {
    if addrs == [] then ([], used)
    else
      var prev := Claim(used, addrs[..|addrs| - 1]);
      var a := addrs[|addrs| - 1];
      if a in prev.1 then (prev.0 + [DuplicateAddress(a)], prev.1) else (prev.0, prev.1 + [a])
  }

  lemma NoDupSnoc(s: seq<int>, a: int)
    ensures NoDup(s + [a]) <==> NoDup(s) && a !in s
  {
    if NoDup(s + [a]) {
      assert forall i :: 0 <= i < |s| ==> (s + [a])[i] == s[i];
      forall i | 0 <= i < |s|
        ensures s[i] != a
      {
        assert (s + [a])[i] == s[i] && (s + [a])[|s|] == a;
      }
    }
  }

  /** The list stays duplicate-free, holds exactly the old and the new
      addresses, every address is either claimed or reported, and no error
      is reported exactly when the old and new addresses are all distinct. */
  lemma {:induction false} ClaimProperties(used: seq<int>, addrs: seq<int>)
    requires NoDup(used)
    ensures var r := Claim(used, addrs);
      NoDup(r.1) &&
      (forall a :: a in r.1 <==> a in used || a in addrs) &&
      |r.0| + |r.1| == |used| + |addrs| &&
      (forall e :: e in r.0 ==> e.DuplicateAddress? && e.address in addrs) &&
      (r.0 == [] <==> NoDup(used + addrs))
  {
    if addrs != [] {
      var init := addrs[..|addrs| - 1];
      var a := addrs[|addrs| - 1];
      ClaimProperties(used, init);
      var prev := Claim(used, init);
      assert addrs == init + [a];
      assert used + addrs == (used + init) + [a];
      NoDupSnoc(used + init, a);
      NoDupSnoc(prev.1, a);
      assert a in prev.1 <==> a in used + init;
    }
  }

  /** The result of the fixture loop before the total is checked. */
  datatype Scan = Scan(errors: seq<ConfigError>, used: seq<int>)

  /** The range error of one fixture, if any. */
  function StartErrors(fx: Fixture): (r: seq<ConfigError>)
    ensures r == [] <==> 1 <= fx.startAddress <= UniverseSize
  {
    if fx.startAddress < 1 || fx.startAddress > UniverseSize then [StartOutOfRange(fx.startAddress)] else []
  }

  function FixtureScan(fixtures: seq<Fixture>): Scan
  {
    if fixtures == [] then Scan([], [])
    else
      var prev := FixtureScan(fixtures[..|fixtures| - 1]);
      var fx := fixtures[|fixtures| - 1];
      var claimed := Claim(prev.used, Addresses(fx));
      Scan(prev.errors + StartErrors(fx) + claimed.0, claimed.1)
  }

  function TotalChannels(fixtures: seq<Fixture>): int
  {
    if fixtures == [] then 0
    else TotalChannels(fixtures[..|fixtures| - 1]) + Channels(fixtures[|fixtures| - 1])
  }

  /** Every address claimed by every fixture, in order. */
  function AllAddresses(fixtures: seq<Fixture>): seq<int>
  {
    if fixtures == [] then []
    else AllAddresses(fixtures[..|fixtures| - 1]) + Addresses(fixtures[|fixtures| - 1])
  }

  /** `_validate_fixtures` */
  function FixtureErrors(fixtures: seq<Fixture>): seq<ConfigError>
  {
    FixtureScan(fixtures).errors +
      (if TotalChannels(fixtures) > UniverseSize then [ChannelOverflow(TotalChannels(fixtures))] else [])
  }

  predicate StartsInRange(fixtures: seq<Fixture>)
  {
    forall i :: 0 <= i < |fixtures| ==> 1 <= fixtures[i].startAddress <= UniverseSize
  }

  /** The claimed list holds each fixture address once, and the loop
      reports nothing exactly when every start is in range and no two
      fixtures share an address. */
  lemma {:induction false} ScanProperties(fixtures: seq<Fixture>)
    ensures var s := FixtureScan(fixtures);
      NoDup(s.used) &&
      (forall a :: a in s.used <==> a in AllAddresses(fixtures)) &&
      (s.errors == [] <==> StartsInRange(fixtures) && NoDup(AllAddresses(fixtures)))
  {
    if fixtures != [] {
      var init := fixtures[..|fixtures| - 1];
      var fx := fixtures[|fixtures| - 1];
      ScanProperties(init);
      var prev := FixtureScan(init);
      var all, ad := AllAddresses(init), Addresses(fx);
      ClaimProperties(prev.used, ad);
      NoDupConcat(prev.used, ad);
      NoDupConcat(all, ad);
      SameDisjointness(prev.used, all, ad);
      StartsInRangeSnoc(init, fx);
      assert fixtures == init + [fx];
      var claimed := Claim(prev.used, ad);
      assert FixtureScan(fixtures) == Scan(prev.errors + StartErrors(fx) + claimed.0, claimed.1);
      assert AllAddresses(fixtures) == all + ad;
    }
  }

  /** Two lists with the same elements meet a third list alike. */
  lemma SameDisjointness(x: seq<int>, y: seq<int>, z: seq<int>)
    requires forall a :: a in x <==> a in y
    ensures (forall a :: a in x ==> a !in z) <==> (forall a :: a in y ==> a !in z)
  {
  }

  lemma StartsInRangeSnoc(init: seq<Fixture>, fx: Fixture)
    ensures StartsInRange(init + [fx]) <==> StartsInRange(init) && 1 <= fx.startAddress <= UniverseSize
  {
    var fixtures := init + [fx];
    if StartsInRange(init) && 1 <= fx.startAddress <= UniverseSize {
      forall i | 0 <= i < |fixtures|
        ensures 1 <= fixtures[i].startAddress <= UniverseSize
      {
        if i < |init| {
          assert fixtures[i] == init[i];
        }
      }
    }
    if StartsInRange(fixtures) {
      forall i | 0 <= i < |init|
        ensures 1 <= init[i].startAddress <= UniverseSize
      {
        assert fixtures[i] == init[i];
      }
      assert fixtures[|init|] == fx;
    }
  }

  lemma NoDupConcat(x: seq<int>, y: seq<int>)
    ensures NoDup(x + y) <==> NoDup(x) && NoDup(y) && (forall a :: a in x ==> a !in y)
  {
    if NoDup(x + y) {
      assert forall i :: 0 <= i < |x| ==> (x + y)[i] == x[i];
      assert forall j :: 0 <= j < |y| ==> (x + y)[|x| + j] == y[j];
      forall a | a in x
        ensures a !in y
      {
        var i :| 0 <= i < |x| && x[i] == a;
        forall j | 0 <= j < |y|
          ensures y[j] != a
        {
          assert (x + y)[i] == a && (x + y)[|x| + j] == y[j];
        }
      }
    }
    if NoDup(x) && NoDup(y) && (forall a :: a in x ==> a !in y) {
      forall i, j | 0 <= i < j < |x + y|
        ensures (x + y)[i] != (x + y)[j]
      {
        if j < |x| {
        } else if i >= |x| {
          assert (x + y)[i] == y[i - |x|];
          assert (x + y)[j] == y[j - |x|];
        } else {
          assert (x + y)[i] in x;
          assert (x + y)[j] in y;
        }
      }
    }
  }

  /** The fixture list is accepted exactly when every start address is in
      1..512, no address is claimed twice and the channels add up to at
      most 512. */
  lemma FixturesValidIff(fixtures: seq<Fixture>)
    ensures FixtureErrors(fixtures) == [] <==>
      StartsInRange(fixtures) && NoDup(AllAddresses(fixtures)) && TotalChannels(fixtures) <= UniverseSize
  {
    ScanProperties(fixtures);
  }

  /** `_validate_fixtures` as written: a loop over the fixtures with an
      inner loop over each one's addresses, appending to `errors` and
      `used_addresses` and accumulating `total_channels`. */
  method ValidateFixtures(fixtures: seq<Fixture>) returns (errors: seq<ConfigError>)
    ensures errors == FixtureErrors(fixtures)
  {
    errors := [];
    var used: seq<int> := [];
    var total := 0;
    for i := 0 to |fixtures|
      invariant Scan(errors, used) == FixtureScan(fixtures[..i])
      invariant total == TotalChannels(fixtures[..i])
    {
      var fx := fixtures[i];
      ScanSnoc(fixtures, i);
      var start := fx.startAddress;
      var channels := fx.channelMode.GetOr(1);
      if start < 1 || start > UniverseSize {
        errors := errors + [StartOutOfRange(start)];
      }
      assert errors == FixtureScan(fixtures[..i]).errors + StartErrors(fx);
      var addresses := Range(start, MinInt(UniverseSize + 1, start + channels));
      assert addresses == Addresses(fx);
      errors, used := ClaimAddresses(errors, used, addresses);
      total := total + channels;
    }
    assert fixtures[..|fixtures|] == fixtures;
    if total > UniverseSize {
      errors := errors + [ChannelOverflow(total)];
    }
  }

  /** One more fixture extends the scan and the channel total. */
  lemma ScanSnoc(fixtures: seq<Fixture>, i: nat)
    requires i < |fixtures|
    ensures var prev := FixtureScan(fixtures[..i]);
      var claimed := Claim(prev.used, Addresses(fixtures[i]));
      FixtureScan(fixtures[..i + 1]) == Scan(prev.errors + StartErrors(fixtures[i]) + claimed.0, claimed.1)
    ensures TotalChannels(fixtures[..i + 1]) == TotalChannels(fixtures[..i]) + Channels(fixtures[i])
  {
    assert fixtures[..i + 1][..i] == fixtures[..i];
  }

  /** The inner loop of `_validate_fixtures` over one fixture's addresses. */
  method ClaimAddresses(errors0: seq<ConfigError>, used0: seq<int>, addresses: seq<int>)
    returns (errors: seq<ConfigError>, used: seq<int>)
    ensures errors == errors0 + Claim(used0, addresses).0
    ensures used == Claim(used0, addresses).1
  {
    errors, used := errors0, used0;
    for j := 0 to |addresses|
      invariant errors == errors0 + Claim(used0, addresses[..j]).0
      invariant used == Claim(used0, addresses[..j]).1
    {
      var a := addresses[j];
      assert addresses[..j + 1] == addresses[..j] + [a];
      ClaimSnoc(used0, addresses[..j], a);
      if a in used {
        errors := errors + [DuplicateAddress(a)];
      } else {
        used := used + [a];
      }
    }
    assert addresses[..|addresses|] == addresses;
  }

  lemma ClaimSnoc(used: seq<int>, addrs: seq<int>, a: int)
    ensures Claim(used, addrs + [a]) ==
      var prev := Claim(used, addrs);
      if a in prev.1 then (prev.0 + [DuplicateAddress(a)], prev.1) else (prev.0, prev.1 + [a])
  {
    assert (addrs + [a])[..|addrs|] == addrs;
  }

  lemma ClaimOne(used: seq<int>, a: int)
    ensures Claim(used, [a]) == if a in used then ([DuplicateAddress(a)], used) else ([], used + [a])
  {
    assert [a][..0] == [];
    assert Claim(used, []) == ([], used);
    assert [] + [DuplicateAddress(a)] == [DuplicateAddress(a)];
  }

  /** Addresses distinct from each other and from `used` are all
      claimed, in order, without an error. */
  lemma {:induction false} ClaimFresh(used: seq<int>, addrs: seq<int>)
    requires NoDup(used + addrs)
    ensures Claim(used, addrs) == ([], used + addrs)
  {
    if addrs != [] {
      var init := addrs[..|addrs| - 1];
      var a := addrs[|addrs| - 1];
      assert used + addrs == (used + init) + [a];
      NoDupSnoc(used + init, a);
      ClaimFresh(used, init);
    } else {
      assert used + addrs == used;
    }
  }

  // --------------------------------------------------------------- pixels

  predicate PixelCountInRange(p: PixelEntry)
  {
    0 <= p.pixelCount <= MaxPixelCount
  }

  /** `_validate_pixels` */
  function PixelErrors(pixels: seq<PixelEntry>): seq<ConfigError>
  {
    if pixels == [] then []
    else
      var p := pixels[|pixels| - 1];
      PixelErrors(pixels[..|pixels| - 1]) +
        (if PixelCountInRange(p) then [] else [PixelCountOutOfRange(p.outputId, p.pixelCount)])
  }

  /** Each entry contributes on its own: one error when its count is out
      of range, none otherwise. */
  lemma {:induction false} PixelErrorsAppend(ps: seq<PixelEntry>, qs: seq<PixelEntry>)
    ensures PixelErrors(ps + qs) == PixelErrors(ps) + PixelErrors(qs)
    decreases |qs|
  {
    if qs == [] {
      assert ps + qs == ps;
    } else {
      var init := qs[..|qs| - 1];
      assert (ps + qs)[..|ps + qs| - 1] == ps + init;
      PixelErrorsAppend(ps, init);
    }
  }

  lemma PixelErrorsSingle(p: PixelEntry)
    ensures PixelErrors([p]) == if PixelCountInRange(p) then [] else [PixelCountOutOfRange(p.outputId, p.pixelCount)]
  {
    assert [p][..0] == [];
  }

  /** No pixel error exactly when every count is within 0..1024. */
  lemma {:induction false} PixelsValidIff(pixels: seq<PixelEntry>)
    ensures PixelErrors(pixels) == [] <==> forall i :: 0 <= i < |pixels| ==> PixelCountInRange(pixels[i])
    ensures |PixelErrors(pixels)| <= |pixels|
  {
    if pixels != [] {
      var init := pixels[..|pixels| - 1];
      PixelsValidIff(init);
      assert forall i :: 0 <= i < |init| ==> init[i] == pixels[i];
    }
  }

  method ValidatePixels(pixels: seq<PixelEntry>) returns (errors: seq<ConfigError>)
    ensures errors == PixelErrors(pixels)
  {
    errors := [];
    for i := 0 to |pixels|
      invariant errors == PixelErrors(pixels[..i])
    {
      var p := pixels[i];
      var cnt := p.pixelCount;
      if cnt < 0 || cnt > MaxPixelCount {
        errors := errors + [PixelCountOutOfRange(p.outputId, cnt)];
      }
      assert pixels[..i + 1][..i] == pixels[..i];
    }
    assert pixels[..|pixels|] == pixels;
  }

  // -------------------------------------------------------- whole config

  /** A top-level list entry as `cfg.get(key, []) or []` sees it: absent,
      a falsy value (None, empty string, 0, empty dict…), a list, or a
      truthy value that is not a list. */
  datatype ListEntry<T> = Absent | Falsy | Items(items: seq<T>) | NotAList

  /** The `stage` entry: absent (read as `{}`), a dict, or anything else. */
  datatype StageEntry = StageAbsent | StageDict | StageNotADict

  datatype Config = Config(stage: StageEntry, fixtures: ListEntry<Fixture>, pixels: ListEntry<PixelEntry>)

  /** The list that gets validated: anything but a truthy non-list. */
  function Listed<T>(e: ListEntry<T>): seq<T>
  {
    if e.Items? then e.items else []
  }

  /** `validate_config`'s error list. */
  function ConfigErrors(cfg: Config): seq<ConfigError>
  {
    (if cfg.stage == StageNotADict then [BadStage] else []) +
    (if cfg.fixtures == NotAList then [BadFixtures] else FixtureErrors(Listed(cfg.fixtures))) +
    (if cfg.pixels == NotAList then [BadPixels] else PixelErrors(Listed(cfg.pixels)))
  }

  method ValidateConfig(cfg: Config) returns (ok: bool, errors: seq<ConfigError>)
    ensures errors == ConfigErrors(cfg)
    ensures ok <==> errors == []
  {
    errors := [];
    if cfg.stage == StageNotADict {
      errors := errors + [BadStage];
    }
    if cfg.fixtures == NotAList {
      errors := errors + [BadFixtures];
    } else {
      var fe := ValidateFixtures(Listed(cfg.fixtures));
      errors := errors + fe;
    }
    if cfg.pixels == NotAList {
      errors := errors + [BadPixels];
    } else {
      var pe := ValidatePixels(Listed(cfg.pixels));
      errors := errors + pe;
    }
    ok := |errors| == 0;
  }

  /** A configuration is accepted exactly when its stage is a dict (or
      absent), its fixtures pass the DMX checks and its pixel counts are in
      range; each shape problem adds exactly one error. */
  lemma ConfigValidIff(cfg: Config)
    ensures ConfigErrors(cfg) == [] <==>
      cfg.stage != StageNotADict && cfg.fixtures != NotAList && cfg.pixels != NotAList &&
      StartsInRange(Listed(cfg.fixtures)) && NoDup(AllAddresses(Listed(cfg.fixtures))) &&
      TotalChannels(Listed(cfg.fixtures)) <= UniverseSize &&
      (forall i :: 0 <= i < |Listed(cfg.pixels)| ==> PixelCountInRange(Listed(cfg.pixels)[i]))
    ensures cfg.stage == StageNotADict ==> ConfigErrors(cfg)[0] == BadStage
  {
    FixturesValidIff(Listed(cfg.fixtures));
    PixelsValidIff(Listed(cfg.pixels));
  }

  // ------------------------------------------------------ the test inputs

  /** Fixtures at 1 (3 channels) and 2 (1 channel) overlap at address 2. */
  lemma OverlapIsReported()
    ensures FixtureErrors([Fixture(1, Some(3)), Fixture(2, Some(1))]) == [DuplicateAddress(2)]
  {
    var fs := [Fixture(1, Some(3)), Fixture(2, Some(1))];
    assert fs[..1] == [Fixture(1, Some(3))];
    FirstFixtureClaims();
    assert Addresses(fs[1]) == [2];
    ClaimOne([1, 2, 3], 2);
    assert [1, 2, 3][1] == 2;
    assert FixtureScan(fs) == Scan([DuplicateAddress(2)], [1, 2, 3]);
    assert TotalChannels(fs[..1]) == 3;
  }

  lemma FirstFixtureClaims()
    ensures FixtureScan([Fixture(1, Some(3))]) == Scan([], [1, 2, 3])
  {
    var fs := [Fixture(1, Some(3))];
    assert fs[..0] == [];
    assert Addresses(fs[0]) == [1, 2, 3];
    NoDupRange(1, 4);
    assert [] + [1, 2, 3] == [1, 2, 3];
    ClaimFresh([], [1, 2, 3]);
  }

  /** Two 300-channel fixtures at 1 and 301 do not overlap (the second is
      cut off at 512) but total 600 channels. */
  lemma OverflowIsReported()
    ensures FixtureErrors([Fixture(1, Some(300)), Fixture(301, Some(300))]) == [ChannelOverflow(600)]
  {
    var fs := [Fixture(1, Some(300)), Fixture(301, Some(300))];
    assert fs[..1] == [Fixture(1, Some(300))];
    assert fs[..1][..0] == [];
    NoDupRange(1, 301);
    NoDupRange(301, 513);
    NoDupConcat(Addresses(fs[0]), Addresses(fs[1]));
    assert AllAddresses(fs[..1]) == Addresses(fs[0]);
    assert AllAddresses(fs) == Addresses(fs[0]) + Addresses(fs[1]);
    ScanProperties(fs);
    assert StartsInRange(fs);
    assert TotalChannels(fs) == 600;
  }

  lemma NoDupRange(lo: int, hi: int)
    ensures NoDup(Range(lo, hi))
  {
  }

  /** A pixel count of 2000 is out of range. */
  lemma PixelCountIsReported()
    ensures ConfigErrors(Config(StageAbsent, Absent, Items([PixelEntry(Some(1), 2000)])))
      == [PixelCountOutOfRange(Some(1), 2000)]
  {
    PixelErrorsSingle(PixelEntry(Some(1), 2000));
  }
}
