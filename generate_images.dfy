/** generate_images.py: find the latest HRRR/RRFS run, decide how many
    forecast hours it has, and render one frame per (hour, variable).

    Times are whole minutes since a midnight-aligned epoch. Everything the
    script learns from the data service or the plotting library is an
    `Upstream` oracle. */
module GenerateImages {
  import opened Wrappers
  import opened Lookback
  import opened Catalog
  import opened Frames

  /** What `Herbie(...).inventory()` does for a candidate run: a listing, `None`, or an exception. */
  datatype ProbeOutcome = Listed | NotListed | ProbeRaised

  /** A dataset from `H.xarray(search)`: the names of its data variables,
      in order; or the call failed (raised, or gave `None`, on which every
      branch raises). */
  datatype Fetched = FetchFailed | Dataset(names: seq<string>)

  datatype Upstream = Upstream(
    /** inventory of F01 for (model, hour-truncated init time) */
    inventory: (string, int) -> ProbeOutcome,
    /** `Herbie(run_time, model, fxx)` constructed without raising */
    openRun: (string, int, nat) -> bool,
    /** `H.xarray(search)` for (model, run, fxx, search pattern) */
    fetch: (string, int, nat, string) -> Fetched,
    /** plotting and `savefig` of the variable's frame completed */
    render: (string, int, nat, VarKey) -> bool)

  /** Look back twelve hours, one hour at a time. */
  const LookbackHours: nat := 12
  const MinutesPerHour: nat := 60

  /** The probe string drops the minutes: `t.strftime('%Y-%m-%d %H:00')`. */
  function ProbeHour(t: int): int {
    t / MinutesPerHour
  }

  function RunAccepted(model: string, inventory: (string, int) -> ProbeOutcome): int -> bool {
    t => inventory(model, ProbeHour(t)) == Listed
  }

  /** The run `get_latest_run_time` returns: the first candidate
      `now - i` hours, i = 0..11, whose F01 inventory is listed. */
  function LatestRun(model: string, now: int, inventory: (string, int) -> ProbeOutcome): Option<int> {
    match FirstHit(RunAccepted(model, inventory), now, MinutesPerHour, 0, LookbackHours)
    case Some(i) => Some(Candidate(now, MinutesPerHour, i))
    case None => None
  }

  /** How many candidates `get_latest_run_time` probes before it returns. */
  function ProbeCount(model: string, now: int, inventory: (string, int) -> ProbeOutcome): nat {
    match FirstHit(RunAccepted(model, inventory), now, MinutesPerHour, 0, LookbackHours)
    case Some(i) => i + 1
    case None => LookbackHours
  }

  /** `get_latest_run_time`: `probed` lists the hour-truncated times handed
      to the probe, in the order they were tried. */
  method GetLatestRunTime(model: string, now: int, inventory: (string, int) -> ProbeOutcome)
    returns (r: Option<int>, probed: seq<int>)
    ensures r == LatestRun(model, now, inventory)
    ensures |probed| == ProbeCount(model, now, inventory) <= LookbackHours
    ensures forall i :: 0 <= i < |probed| ==> probed[i] == ProbeHour(Candidate(now, MinutesPerHour, i))
  {
    ghost var accepts := RunAccepted(model, inventory);
    probed := [];
    for i := 0 to LookbackHours
      invariant FirstHit(accepts, now, MinutesPerHour, 0, LookbackHours) == FirstHit(accepts, now, MinutesPerHour, i, LookbackHours)
      invariant |probed| == i
      invariant forall j :: 0 <= j < i ==> probed[j] == ProbeHour(Candidate(now, MinutesPerHour, j))
    {
      var t := Candidate(now, MinutesPerHour, i);
      probed := probed + [ProbeHour(t)];
      var outcome := inventory(model, ProbeHour(t));
      assert accepts(t) == (outcome == Listed);
      if outcome == Listed {
        r := Some(t);
        return;
      }
      // NotListed and ProbeRaised both move on to the next candidate
    }
    r := None;
  }

  /** Every candidate in the window is probed and none is listed exactly when
      no run is found; then nothing else is probed. */
  lemma NoRunFound(model: string, now: int, inventory: (string, int) -> ProbeOutcome)
    ensures LatestRun(model, now, inventory).None? <==>
              forall i :: 0 <= i < LookbackHours ==> inventory(model, ProbeHour(Candidate(now, MinutesPerHour, i))) != Listed
    ensures LatestRun(model, now, inventory).None? ==> ProbeCount(model, now, inventory) == LookbackHours
  {
    var accepts := RunAccepted(model, inventory);
    assert forall i :: accepts(i) == (inventory(model, ProbeHour(i)) == Listed);
    FirstHitSpec(accepts, now, MinutesPerHour, 0, LookbackHours);
  }

  /** The found run is a candidate of the window with a listed inventory, and
      every more recent candidate is not listed (it raised or gave `None`). */
  lemma LatestRunIsFirstListed(model: string, now: int, inventory: (string, int) -> ProbeOutcome)
    requires LatestRun(model, now, inventory).Some?
    ensures var i := ProbeCount(model, now, inventory) - 1;
      0 <= i < LookbackHours &&
      LatestRun(model, now, inventory).value == Candidate(now, MinutesPerHour, i) &&
      inventory(model, ProbeHour(Candidate(now, MinutesPerHour, i))) == Listed &&
      forall j :: 0 <= j < i ==> inventory(model, ProbeHour(Candidate(now, MinutesPerHour, j))) != Listed
  {
    var accepts := RunAccepted(model, inventory);
    assert forall i :: accepts(i) == (inventory(model, ProbeHour(i)) == Listed);
    FirstHitSpec(accepts, now, MinutesPerHour, 0, LookbackHours);
  }

  // ---------------------------------------------------------------- run length

  /** `int(run_time.strftime("%H"))` */
  function HourOfDay(t: int): (h: nat)
    ensures h < 24
  {
    (t / MinutesPerHour) % 24
  }

  /** `run_hour in [0, 6, 12, 18]` */
  predicate IsLongRun(hour: int) {
    hour in [0, 6, 12, 18]
  }

  /** The number of forecast hours to render. */
  function MaxFxx(model: string, longRun: bool): (n: nat)
    ensures n in {18, 48, 60}
    ensures n == 18 <==> !longRun
  {
    if model == "hrrr" then (if longRun then 48 else 18)
    else (if longRun then 60 else 18)
  }

  lemma ModSix(x: int)
    ensures (x % 24) % 6 == x % 6
  {
    var q, r := x / 24, x % 24;
    var a, b := r / 6, r % 6;
    assert x == 6 * (4 * q + a) + b;
    ModOfMultiplePlus(x, 4 * q + a, b);
  }

  lemma ModOfMultiplePlus(x: int, k: int, b: int)
    requires 0 <= b < 6 && x == 6 * k + b
    ensures x % 6 == b
  {
  }

  /** A run is long exactly when its init hour is a multiple of six. */
  lemma LongRunEverySixHours(t: int)
    ensures IsLongRun(HourOfDay(t)) <==> (t / MinutesPerHour) % 6 == 0
  {
    ModSix(t / MinutesPerHour);
  }

  /** The forecast length of a run found at time `t`: HRRR 48 h at 00/06/12/18Z,
      any other model 60 h then, and 18 h at every other hour. */
  lemma ForecastLength(model: string, t: int)
    ensures var n := MaxFxx(model, IsLongRun(HourOfDay(t)));
      (t / MinutesPerHour) % 6 == 0 ==> n == (if model == "hrrr" then 48 else 60)
    ensures (t / MinutesPerHour) % 6 != 0 ==> MaxFxx(model, IsLongRun(HourOfDay(t))) == 18
  {
    LongRunEverySixHours(t);
  }

  // ---------------------------------------------------------------- frames

  /** Fetch, convert and render one variable at one forecast hour; `None` is
      an exception anywhere from `H.xarray` to `savefig`. */
  function Attempt(up: Upstream, model: string, run: int, fxx: nat, k: VarKey): (r: Option<Frame>)
    ensures r.Some? ==> r.value.model == model && r.value.key == k && r.value.fxx == fxx
    ensures r.Some? ==> r.value.smoothed == Smoothed(k) && BranchKey(r.value.field) == k
  {
    match up.fetch(model, run, fxx, Config(k).search)
    case FetchFailed => None
    case Dataset(names) =>
      match Derive(k, names)
      case None => None
      case Some(d) => if up.render(model, run, fxx, k) then Some(Frame(model, k, fxx, d, Smoothed(k))) else None
  }

  /** The results of `attempt` over `ks` up to, not including, the first failure. */
  function UntilFirstFailure<K, F(==)>(ks: seq<K>, attempt: K -> Option<F>): (r: seq<F>)
    ensures |r| <= |ks|
    ensures forall i :: 0 <= i < |r| ==> attempt(ks[i]) == Some(r[i])
    ensures |r| < |ks| ==> attempt(ks[|r|]).None?
  {
    if ks == [] then []
    else match attempt(ks[0])
      case None => []
      case Some(f) => [f] + UntilFirstFailure(ks[1..], attempt)
  }

  /** Those three properties pin the result down. */
  lemma UntilFirstFailureUnique<K, F>(ks: seq<K>, attempt: K -> Option<F>, r: seq<F>)
    requires |r| <= |ks|
    requires forall i :: 0 <= i < |r| ==> attempt(ks[i]) == Some(r[i])
    requires |r| < |ks| ==> attempt(ks[|r|]).None?
    ensures r == UntilFirstFailure(ks, attempt)
  {
  }

  /** The frames saved at forecast hour `fxx`: nothing if `Herbie(...)`
      raised, else the variables in table order until the first one raises. */
  function HourFrames(up: Upstream, model: string, run: int, fxx: nat): seq<Frame> {
    if up.openRun(model, run, fxx) then UntilFirstFailure(Variables, k => Attempt(up, model, run, fxx, k))
    else []
  }

  /** The frames of each forecast hour of one run. */
  function HourFramesOf(up: Upstream, model: string, run: int): nat -> seq<Frame> {
    (fxx: nat) => HourFrames(up, model, run, fxx)
  }

  /** The frames of hours 1..n, hour after hour. */
  function Concat(hour: nat -> seq<Frame>, n: nat): seq<Frame> {
    if n == 0 then [] else Concat(hour, n - 1) + hour(n)
  }

  /** The frames saved for forecast hours 1..n, in order. */
  function FramesThrough(up: Upstream, model: string, run: int, n: nat): seq<Frame> {
    Concat(HourFramesOf(up, model, run), n)
  }

  /** What `process_model` saves for `model` when started at `now`. */
  function ModelFrames(model: string, now: int, up: Upstream): seq<Frame> {
    match LatestRun(model, now, up.inventory)
    case None => []
    case Some(t) => FramesThrough(up, model, t, MaxFxx(model, IsLongRun(HourOfDay(t))))
  }

  /** A frame is saved for its hour exactly when the hour's `Herbie` object
      was built, every variable before it in the table succeeded, and it
      succeeded too. Only that hour's outcomes matter: a failure ends the
      rest of its own hour and no other. */
  ghost predicate Produced(up: Upstream, model: string, run: int, f: Frame) {
    f.fxx >= 1 &&
    up.openRun(model, run, f.fxx) &&
    (forall i :: 0 <= i < KeyIndex(f.key) ==> Attempt(up, model, run, f.fxx, Variables[i]).Some?) &&
    Attempt(up, model, run, f.fxx, f.key) == Some(f)
  }

  lemma HourFramesSound(up: Upstream, model: string, run: int, fxx: nat, f: Frame)
    requires fxx >= 1
    requires f in HourFrames(up, model, run, fxx)
    ensures f.fxx == fxx && Produced(up, model, run, f)
  {
    var attempt := k => Attempt(up, model, run, fxx, k);
    var r := UntilFirstFailure(Variables, attempt);
    var j :| 0 <= j < |r| && r[j] == f;
    assert attempt(Variables[j]) == Some(f);
    VariablesDistinct();
    assert KeyIndex(f.key) == j;
    forall i | 0 <= i < j ensures Attempt(up, model, run, fxx, Variables[i]).Some? {
      assert attempt(Variables[i]) == Some(r[i]);
    }
  }

  lemma HourFramesComplete(up: Upstream, model: string, run: int, fxx: nat, f: Frame)
    requires fxx >= 1
    requires f.fxx == fxx && Produced(up, model, run, f)
    ensures f in HourFrames(up, model, run, fxx)
  {
    var attempt := k => Attempt(up, model, run, fxx, k);
    var r := UntilFirstFailure(Variables, attempt);
    var j := KeyIndex(f.key);
    if |r| <= j {
      assert false;
    }
    assert attempt(Variables[j]) == Some(r[j]);
  }

  lemma HourFramesExactly(up: Upstream, model: string, run: int, fxx: nat, f: Frame)
    requires fxx >= 1
    ensures f in HourFrames(up, model, run, fxx) <==> f.fxx == fxx && Produced(up, model, run, f)
  {
    if f in HourFrames(up, model, run, fxx) {
      HourFramesSound(up, model, run, fxx, f);
    }
    if f.fxx == fxx && Produced(up, model, run, f) {
      HourFramesComplete(up, model, run, fxx, f);
    }
  }

  lemma FramesThroughExactly(up: Upstream, model: string, run: int, n: nat, f: Frame)
    ensures f in FramesThrough(up, model, run, n) <==> f.fxx <= n && Produced(up, model, run, f)
  {
    var hour := HourFramesOf(up, model, run);
    var produced := Produced(up, model, run, f);
    forall m | 1 <= m <= n ensures f in hour(m) <==> f.fxx == m && produced {
      HourFramesExactly(up, model, run, m, f);
    }
    ConcatMembers(hour, n, f, produced);
  }

  /** A frame belongs to hours 1..n exactly when it belongs to the hour it
      names, and that hour is at most n. */
  lemma {:induction false} ConcatMembers(hour: nat -> seq<Frame>, n: nat, f: Frame, produced: bool)
    requires produced ==> f.fxx >= 1
    requires forall m :: 1 <= m <= n ==> (f in hour(m) <==> f.fxx == m && produced)
    ensures f in Concat(hour, n) <==> f.fxx <= n && produced
  {
    if n > 0 {
      ConcatMembers(hour, n - 1, f, produced);
      assert f in Concat(hour, n) <==> f in Concat(hour, n - 1) || f in hour(n);
    }
  }

  /** Frame order: by forecast hour, then by table position. */
  predicate Before(a: Frame, b: Frame) {
    a.fxx < b.fxx || (a.fxx == b.fxx && KeyIndex(a.key) < KeyIndex(b.key))
  }

  ghost predicate Sorted(s: seq<Frame>) {
    forall i, j :: 0 <= i < j < |s| ==> Before(s[i], s[j])
  }

  ghost predicate HoursWithin(s: seq<Frame>, lo: nat, hi: nat) {
    forall i :: 0 <= i < |s| ==> lo <= s[i].fxx <= hi
  }

  ghost predicate OfModel(s: seq<Frame>, model: string) {
    forall i :: 0 <= i < |s| ==> s[i].model == model
  }

  lemma HourFramesOrdered(up: Upstream, model: string, run: int, fxx: nat)
    ensures Sorted(HourFrames(up, model, run, fxx))
    ensures HoursWithin(HourFrames(up, model, run, fxx), fxx, fxx)
    ensures OfModel(HourFrames(up, model, run, fxx), model)
  {
    var attempt := k => Attempt(up, model, run, fxx, k);
    var r := HourFrames(up, model, run, fxx);
    VariablesDistinct();
    forall i | 0 <= i < |r| ensures r[i].fxx == fxx && r[i].model == model && KeyIndex(r[i].key) == i {
      assert attempt(Variables[i]) == Some(r[i]);
    }
  }

  /** Appending the frames of hour `n` to those of earlier hours keeps the order. */
  lemma AppendHour(a: seq<Frame>, b: seq<Frame>, n: nat, model: string)
    requires n >= 1
    requires Sorted(a) && HoursWithin(a, 1, n - 1) && OfModel(a, model)
    requires Sorted(b) && HoursWithin(b, n, n) && OfModel(b, model)
    ensures Sorted(a + b) && HoursWithin(a + b, 1, n) && OfModel(a + b, model)
  {
    var s := a + b;
    forall i | 0 <= i < |s| ensures 1 <= s[i].fxx <= n && s[i].model == model {
      if i >= |a| { assert s[i] == b[i - |a|]; }
    }
    forall i, j | 0 <= i < j < |s| ensures Before(s[i], s[j]) {
      if j < |a| {
        assert s[i] == a[i] && s[j] == a[j];
      } else if i < |a| {
        assert s[i] == a[i] && s[j] == b[j - |a|];
      } else {
        assert s[i] == b[i - |a|] && s[j] == b[j - |a|];
      }
    }
  }

  /** Hours ascend, each hour's variables follow the table, and no frame
      (hence, by `FramePathInjective`, no file) occurs twice. */
  lemma {:induction false} FramesThroughOrdered(up: Upstream, model: string, run: int, n: nat)
    ensures Sorted(FramesThrough(up, model, run, n))
    ensures HoursWithin(FramesThrough(up, model, run, n), 1, n)
    ensures OfModel(FramesThrough(up, model, run, n), model)
  {
    if n > 0 {
      FramesThroughOrdered(up, model, run, n - 1);
      HourFramesOrdered(up, model, run, n);
      AppendHour(FramesThrough(up, model, run, n - 1), HourFrames(up, model, run, n), n, model);
    }
  }

  /** The saved frames of one `process_model` call: none without a run;
      otherwise exactly the produced frames of hours 1..max_fxx (never
      hour 0), in hour-then-table order. */
  lemma ModelFramesExactly(model: string, now: int, up: Upstream, f: Frame)
    ensures LatestRun(model, now, up.inventory).None? ==> ModelFrames(model, now, up) == []
    ensures LatestRun(model, now, up.inventory).Some? ==>
              var t := LatestRun(model, now, up.inventory).value;
              (f in ModelFrames(model, now, up) <==>
                 f.fxx <= MaxFxx(model, IsLongRun(HourOfDay(t))) && Produced(up, model, t, f))
    ensures Sorted(ModelFrames(model, now, up)) && OfModel(ModelFrames(model, now, up), model)
  {
    match LatestRun(model, now, up.inventory)
    case None =>
    case Some(t) =>
      var n := MaxFxx(model, IsLongRun(HourOfDay(t)));
      FramesThroughExactly(up, model, t, n, f);
      FramesThroughOrdered(up, model, t, n);
  }

  /** The variables loop of one forecast hour (lines 64-120). */
  method ProcessHour(model: string, run: int, fxx: nat, up: Upstream) returns (frames: seq<Frame>)
    ensures frames == HourFrames(up, model, run, fxx)
  {
    frames := [];
    if !up.openRun(model, run, fxx) {
      return;
    }
    ghost var attempt := k => Attempt(up, model, run, fxx, k);
    var i := 0;
    while i < |Variables|
      invariant 0 <= i <= |Variables|
      invariant |frames| == i
      invariant forall j :: 0 <= j < i ==> attempt(Variables[j]) == Some(frames[j])
    {
      var k := Variables[i];
      var ds := up.fetch(model, run, fxx, Config(k).search);
      if ds.FetchFailed? {
        break;
      }
      var d := Derive(k, ds.names);
      if d.None? {
        break;
      }
      if !up.render(model, run, fxx, k) {
        break;
      }
      frames := frames + [Frame(model, k, fxx, d.value, Smoothed(k))];
      i := i + 1;
    }
    UntilFirstFailureUnique(Variables, attempt, frames);
  }

  /** `process_model` */
  method ProcessModel(model: string, now: int, up: Upstream) returns (run: Option<int>, saved: seq<Frame>)
    ensures run == LatestRun(model, now, up.inventory)
    ensures saved == ModelFrames(model, now, up)
    ensures run.None? ==> saved == []
  {
    var probed;
    run, probed := GetLatestRunTime(model, now, up.inventory);
    if run.None? {
      saved := [];
      return;
    }
    var t := run.value;
    var maxFxx := MaxFxx(model, IsLongRun(HourOfDay(t)));
    saved := [];
    for fxx := 1 to maxFxx + 1
      invariant saved == FramesThrough(up, model, t, fxx - 1)
    {
      var frames := ProcessHour(model, t, fxx, up);
      saved := saved + frames;
    }
  }

  /** The script's entry point: HRRR, then RRFS, each reading its own clock. */
  method GenerateAll(nowHrrr: int, nowRrfs: int, up: Upstream) returns (saved: seq<Frame>)
    ensures saved == ModelFrames("hrrr", nowHrrr, up) + ModelFrames("rrfs", nowRrfs, up)
  {
    var _, hrrr := ProcessModel("hrrr", nowHrrr, up);
    var _, rrfs := ProcessModel("rrfs", nowRrfs, up);
    saved := hrrr + rrfs;
  }

  function PathOf(f: Frame): string {
    FramePath(f.model, f.key, f.fxx)
  }

  /** Two sorted frame lists of two different models name no file twice. */
  lemma DistinctPaths(a: seq<Frame>, ma: string, b: seq<Frame>, mb: string)
    requires Sorted(a) && OfModel(a, ma) && Sorted(b) && OfModel(b, mb) && ma != mb
    ensures forall i, j :: 0 <= i < j < |a + b| ==> PathOf((a + b)[i]) != PathOf((a + b)[j])
  {
    var s := a + b;
    forall i, j | 0 <= i < j < |s| ensures PathOf(s[i]) != PathOf(s[j]) {
      if j < |a| {
        assert s[i] == a[i] && s[j] == a[j] && Before(a[i], a[j]);
      } else if i >= |a| {
        assert s[i] == b[i - |a|] && s[j] == b[j - |a|] && Before(b[i - |a|], b[j - |a|]);
      } else {
        assert s[i] == a[i] && s[j] == b[j - |a|];
      }
      if PathOf(s[i]) == PathOf(s[j]) {
        FramePathInjective(s[i].model, s[i].key, s[i].fxx, s[j].model, s[j].key, s[j].fxx);
        assert false;
      }
    }
  }

  /** No file written by one run of the script is overwritten by a later
      frame of the same run. */
  lemma GenerateAllWritesDistinctFiles(nowHrrr: int, nowRrfs: int, up: Upstream)
    ensures var s := ModelFrames("hrrr", nowHrrr, up) + ModelFrames("rrfs", nowRrfs, up);
      forall i, j :: 0 <= i < j < |s| ==> PathOf(s[i]) != PathOf(s[j])
  {
    var a, b := ModelFrames("hrrr", nowHrrr, up), ModelFrames("rrfs", nowRrfs, up);
    ModelFramesExactly("hrrr", nowHrrr, up, Frame("hrrr", Temp, 0, AsIs(""), false));
    ModelFramesExactly("rrfs", nowRrfs, up, Frame("rrfs", Temp, 0, AsIs(""), false));
    DistinctPaths(a, "hrrr", b, "rrfs");
  }
}
