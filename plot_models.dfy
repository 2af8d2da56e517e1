/** scripts/plot_models.py: for each configured model, look back up to twelve
    hours for a 2 m temperature dataset and save one map of the newest found.

    Times are whole minutes since an epoch; the data service and the plotting
    library are a `Source` oracle. */
module PlotModels {
  import opened Wrappers
  import opened Lookback

  datatype ModelConfig = ModelConfig(model: string, product: string)

  /** The `models` dictionary, in insertion order. */
  const Models: seq<(string, ModelConfig)> := [
    ("hrrr", ModelConfig("hrrr", "sfc")),
    ("gfs", ModelConfig("gfs", "pgrb2.0p25")),
    ("nam", ModelConfig("nam", "conus")),
    ("nam3k", ModelConfig("nam", "conusnest"))
  ]

  /** What `Herbie(...)` followed by `H.xarray(":TMP:2 m")` gives: `None`,
      an exception, or a dataset with the names of its data variables. */
  datatype TempFetch = NoDataset | FetchRaised | Dataset(names: seq<string>)

  datatype Source = Source(
    /** the dataset for (model/product, candidate init time) */
    fetch: (ModelConfig, int) -> TempFetch,
    /** plotting and `savefig` for (dictionary key, init time) completed */
    render: (string, int) -> bool)

  /** Thirteen candidates: `hours_back` in `range(0, 13)`. */
  const Candidates: nat := 13
  const MinutesPerHour: nat := 60

  /** `'t2m' if 't2m' in ds else 't'` */
  function TempVar(names: seq<string>): (v: string)
    ensures v == "t2m" || v == "t"
    ensures v == "t2m" <==> "t2m" in names
    ensures v in names <==> "t2m" in names || "t" in names
  {
    if "t2m" in names then "t2m" else "t"
  }

  /** A candidate succeeds when a dataset came back, its temperature field
      exists (`ds[temp_var]` raises otherwise) and the image was saved. A
      `None` dataset and an exception are both just a skip. */
  predicate Accepts(src: Source, name: string, config: ModelConfig, t: int) {
    match src.fetch(config, t)
    case Dataset(names) => TempVar(names) in names && src.render(name, t)
    case NoDataset => false
    case FetchRaised => false
  }

  function Accepted(src: Source, name: string, config: ModelConfig): int -> bool {
    t => Accepts(src, name, config, t)
  }

  /** The init time of the data `plot_temperature` plots, if any. */
  function PlottedRun(name: string, config: ModelConfig, start: int, src: Source): Option<int> {
    match FirstHit(Accepted(src, name, config), start, MinutesPerHour, 0, Candidates)
    case Some(h) => Some(Candidate(start, MinutesPerHour, h))
    case None => None
  }

  /** `f"images/{model_name}_temp.png"` */
  function OutputPath(name: string): string {
    "images/" + name + "_temp.png"
  }

  /** How many candidates `plot_temperature` tries before the loop ends. */
  function TryCount(name: string, config: ModelConfig, start: int, src: Source): nat {
    match FirstHit(Accepted(src, name, config), start, MinutesPerHour, 0, Candidates)
    case Some(h) => h + 1
    case None => Candidates
  }

  /** `plot_temperature`: `found` is `found_data` after the loop, `plotted`
      the init time (`search_dt`) of the map saved, `written` the files
      saved and `tried` the candidate times handed to `Herbie`, in order. */
  method PlotTemperature(name: string, config: ModelConfig, start: int, src: Source)
    returns (found: bool, plotted: Option<int>, written: seq<string>, tried: seq<int>)
    ensures plotted == PlottedRun(name, config, start, src)
    ensures found == plotted.Some?
    ensures written == if found then [OutputPath(name)] else []
    ensures |tried| == TryCount(name, config, start, src) <= Candidates
    ensures forall h :: 0 <= h < |tried| ==> tried[h] == Candidate(start, MinutesPerHour, h)
  {
    ghost var accepts := Accepted(src, name, config);
    found, plotted, written, tried := false, None, [], [];
    for hoursBack := 0 to Candidates
      invariant FirstHit(accepts, start, MinutesPerHour, 0, Candidates) == FirstHit(accepts, start, MinutesPerHour, hoursBack, Candidates)
      invariant !found && plotted.None? && written == []
      invariant |tried| == hoursBack
      invariant forall h :: 0 <= h < hoursBack ==> tried[h] == Candidate(start, MinutesPerHour, h)
    {
      var searchDt := Candidate(start, MinutesPerHour, hoursBack);
      tried := tried + [searchDt];
      assert accepts(searchDt) == Accepts(src, name, config, searchDt);
      var ds := src.fetch(config, searchDt);
      if ds.NoDataset? || ds.FetchRaised? {
        continue;
      }
      var tempVar := TempVar(ds.names);
      if tempVar !in ds.names {
        continue;   // KeyError, caught by the bare `except`
      }
      if !src.render(name, searchDt) {
        continue;
      }
      written := written + [OutputPath(name)];
      plotted := Some(searchDt);
      found := true;
      break;
    }
  }

  /** `found_data` ends true exactly when some candidate among the
      thirteen succeeds, and then it is the most recent successful one. */
  lemma PlottedRunIsFirstSuccess(name: string, config: ModelConfig, start: int, src: Source)
    ensures PlottedRun(name, config, start, src).None? <==>
              forall h :: 0 <= h < Candidates ==> !Accepts(src, name, config, Candidate(start, MinutesPerHour, h))
    ensures PlottedRun(name, config, start, src).Some? ==>
              exists h :: 0 <= h < Candidates &&
                PlottedRun(name, config, start, src).value == Candidate(start, MinutesPerHour, h) &&
                Accepts(src, name, config, Candidate(start, MinutesPerHour, h)) &&
                forall g :: 0 <= g < h ==> !Accepts(src, name, config, Candidate(start, MinutesPerHour, g))
  {
    var accepts := Accepted(src, name, config);
    assert forall t :: accepts(t) == Accepts(src, name, config, t);
    FirstHitSpec(accepts, start, MinutesPerHour, 0, Candidates);
    var r := FirstHit(accepts, start, MinutesPerHour, 0, Candidates);
    if r.Some? {
      var h := r.value;
      assert PlottedRun(name, config, start, src).value == Candidate(start, MinutesPerHour, h);
    }
  }

  /** The files the driver loop saves for the first `n` models, given which
      of them found data. */
  function SavedThrough(models: seq<(string, ModelConfig)>, found: seq<bool>, n: nat): seq<string>
    requires n <= |models| && n <= |found|
  {
    if n == 0 then []
    else SavedThrough(models, found, n - 1) + (if found[n - 1] then [OutputPath(models[n - 1].0)] else [])
  }

  /** The `__main__` loop: each model in dictionary order with its own clock
      reading, whatever happened to the models before it. */
  method PlotAll(models: seq<(string, ModelConfig)>, starts: seq<int>, src: Source)
    returns (found: seq<bool>, written: seq<string>)
    requires |starts| == |models|
    ensures |found| == |models|
    ensures forall i {:trigger PlottedRun(models[i].0, models[i].1, starts[i], src)} :: 0 <= i < |models| ==>
              found[i] == PlottedRun(models[i].0, models[i].1, starts[i], src).Some?
    ensures written == SavedThrough(models, found, |models|)
  {
    found, written := [], [];
    for i := 0 to |models|
      invariant |found| == i
      invariant forall j {:trigger PlottedRun(models[j].0, models[j].1, starts[j], src)} :: 0 <= j < i ==>
                  found[j] == PlottedRun(models[j].0, models[j].1, starts[j], src).Some?
      invariant written == SavedThrough(models, found, i)
    {
      var name, config := models[i].0, models[i].1;
      var ok, _, out, _ := PlotTemperature(name, config, starts[i], src);
      SavedThroughPrefix(models, found, [ok], i);
      assert SavedThrough(models, found + [ok], i + 1) == written + out;
      found := found + [ok];
      written := written + out;
    }
  }

  lemma {:induction false} SavedThroughPrefix(models: seq<(string, ModelConfig)>, found: seq<bool>, more: seq<bool>, n: nat)
    requires n <= |models| && n <= |found|
    ensures SavedThrough(models, found + more, n) == SavedThrough(models, found, n)
  {
    if n > 0 {
      SavedThroughPrefix(models, found, more, n - 1);
      assert (found + more)[n - 1] == found[n - 1];
    }
  }

  lemma OutputPathInjective(a: string, b: string)
    requires OutputPath(a) == OutputPath(b)
    ensures a == b
  {
    var p := OutputPath(a);
    assert a == p[7..|p| - 9];
    assert b == OutputPath(b)[7..|p| - 9];
  }

  /** A path is saved by the first `n` iterations exactly when it is the
      output path of one of those models that found data. */
  lemma {:induction false} SavedThroughExactly(models: seq<(string, ModelConfig)>, found: seq<bool>, n: nat, p: string)
    requires n <= |models| && n <= |found|
    ensures p in SavedThrough(models, found, n) <==> exists i :: 0 <= i < n && found[i] && p == OutputPath(models[i].0)
  {
    if n > 0 {
      var m := n - 1;
      SavedThroughExactly(models, found, m, p);
      if exists i :: 0 <= i < n && found[i] && p == OutputPath(models[i].0) {
        var i :| 0 <= i < n && found[i] && p == OutputPath(models[i].0);
        if i == m {
          assert p in SavedThrough(models, found, n);
        }
      }
    }
  }

  /** Models with distinct keys never overwrite each other's image: the saved
      list has no repeated path. */
  lemma {:induction false} SavedThroughDistinct(models: seq<(string, ModelConfig)>, found: seq<bool>, n: nat)
    requires n <= |models| && n <= |found|
    requires forall i, j :: 0 <= i < j < |models| ==> models[i].0 != models[j].0
    ensures forall i, j :: 0 <= i < j < |SavedThrough(models, found, n)| ==>
              SavedThrough(models, found, n)[i] != SavedThrough(models, found, n)[j]
  {
    if n > 0 {
      var m := n - 1;
      SavedThroughDistinct(models, found, m);
      var prefix := SavedThrough(models, found, m);
      if found[m] {
        var p := OutputPath(models[m].0);
        if p in prefix {
          SavedThroughExactly(models, found, m, p);
          var i :| 0 <= i < m && found[i] && p == OutputPath(models[i].0);
          OutputPathInjective(models[i].0, models[m].0);
          assert false;
        }
        var s := prefix + [p];
        forall i, j | 0 <= i < j < |s| ensures s[i] != s[j] {
          if j == |prefix| {
            assert s[i] == prefix[i];
          } else {
            assert s[i] == prefix[i] && s[j] == prefix[j];
          }
        }
      }
    }
  }

  /** Keys, not model names, decide the file: `nam` and `nam3k` share the
      model `nam` yet write different images, and no two entries of the
      table write the same file. */
  lemma ModelsWriteDistinctFiles()
    ensures Models[2].1.model == Models[3].1.model
    ensures forall i, j :: 0 <= i < j < |Models| ==> OutputPath(Models[i].0) != OutputPath(Models[j].0)
  {
    forall i, j | 0 <= i < j < |Models| ensures OutputPath(Models[i].0) != OutputPath(Models[j].0) {
      if OutputPath(Models[i].0) == OutputPath(Models[j].0) {
        OutputPathInjective(Models[i].0, Models[j].0);
      }
    }
  }

  /** The script run on its own `models` table: every model is tried, and no
      image overwrites another. */
  method PlotCatalog(starts: seq<int>, src: Source) returns (found: seq<bool>, written: seq<string>)
    requires |starts| == |Models|
    ensures |found| == |Models|
    ensures forall i {:trigger PlottedRun(Models[i].0, Models[i].1, starts[i], src)} :: 0 <= i < |Models| ==>
              found[i] == PlottedRun(Models[i].0, Models[i].1, starts[i], src).Some?
    ensures forall p :: p in written <==> exists i :: 0 <= i < |Models| && found[i] && p == OutputPath(Models[i].0)
    ensures forall i, j :: 0 <= i < j < |written| ==> written[i] != written[j]
  {
    found, written := PlotAll(Models, starts, src);
    forall p ensures p in written <==> exists i :: 0 <= i < |Models| && found[i] && p == OutputPath(Models[i].0) {
      SavedThroughExactly(Models, found, |Models|, p);
    }
    SavedThroughDistinct(Models, found, |Models|);
  }
}
