# modelviewer: run discovery and frame scheduling, modelled in Dafny

The repository has two scripts. `generate_images.py` finds the newest HRRR or
RRFS run within the last twelve hours. It decides how many forecast hours
that run has. Then it renders one map per (forecast hour, variable) into
`frames_{model}_{var}/fNN.png`. `scripts/plot_models.py` looks back up to
twelve hours for each entry of its `models` table and saves a single 2 m
temperature map, `images/{name}_temp.png`, for the newest data it finds.

This project models the decision logic underneath the downloading and
plotting:

- the bounded look-back searches, most recent candidate first;
- the long-run rule and the forecast length it gives;
- the order of forecast hours and variables;
- how far one exception reaches;
- the artifact paths.

Time is counted in whole minutes since a midnight-aligned epoch. A
candidate `i` hours back is `now - 60 * i`. The hour of day is
`(t / 60) % 24`. The data service (Herbie, xarray) and the plotting library
are oracles passed in as function-valued parameters (`Upstream`, `Source`).
Their answers are what the scripts can observe: a listing, `None` or an
exception from an inventory probe; the field names of a fetched dataset or
a failure; whether plotting and saving completed.

Modules:

- `Wrappers` holds `Option`.
- `Format` holds Python's integer formatting (`{n}`, `{n:02d}`), its inverse, and a string-splitting lemma.
- `Lookback` holds the look-back search that both scripts share.
- `Catalog` holds the `VARIABLES` table.
- `Frames` holds the per-variable conversion branch, smoothing and frame paths.
- `GenerateImages` holds `get_latest_run_time`, the run-length rule, `process_model` and the entry point.
- `PlotModels` holds `plot_temperature`, the `models` table and its driver loop.

Both scripts keep no state between runs: each look-back starts from the
current clock reading, twelve hourly candidates in `generate_images.py` and
thirteen in `scripts/plot_models.py`. In `process_model` one `try` covers a
whole forecast hour, so a variable that raises ends the remaining variables
of that hour, while later hours are still processed.

## Model

| member | source | states |
|---|---|---|
| Lookback.FirstHit | generate_images.py:34-43 | the search result, when there is one, is an index inside the window |
| Lookback.FirstHitSpec | generate_images.py:34-43 | the search returns the first accepted candidate of the window, with every earlier candidate rejected; it returns nothing exactly when no candidate of the window is accepted |
| Lookback.FirstHitDependsOnCandidatesOnly | generate_images.py:34-40 | the outcome depends only on the probe's answers for the candidates `start - i * step` of the window |
| GenerateImages.GetLatestRunTime | generate_images.py:31-43 | returns the first candidate `now - i h` (i = 0..11) whose F01 inventory is listed, else None; the probed hour strings are exactly `now - i h` truncated to the hour, in increasing i, and probing stops right after the first success |
| GenerateImages.NoRunFound | generate_images.py:34-43 | no run is found exactly when none of the twelve candidates is listed (a `None` inventory and a raised probe count alike); then all twelve were probed |
| GenerateImages.LatestRunIsFirstListed | generate_images.py:36-42 | a found run is a listed candidate of the window, and every more recent candidate was skipped |
| GenerateImages.HourOfDay | generate_images.py:53 | the run hour of a time is an hour of the day, below 24 |
| GenerateImages.MaxFxx | generate_images.py:56-59 | the forecast length is one of 18, 48 and 60, and it is 18 exactly on a short run |
| GenerateImages.LongRunEverySixHours | generate_images.py:53-54 | a run is long (hour in {0, 6, 12, 18}) exactly when its init hour count is a multiple of six |
| GenerateImages.ForecastLength | generate_images.py:51-59 | HRRR runs 48 h and any other model 60 h at 00/06/12/18Z; at every other hour a run has 18 h |
| Catalog.KeyName | generate_images.py:23-28 | the four variable keys are four characters long and contain neither '_' nor '/' |
| Catalog.KeyIndex | generate_images.py:23-28 | every variable occurs in the table, at the position the index gives |
| Catalog.KeyNameInjective | generate_images.py:23-28 | distinct variables have distinct keys |
| Frames.Derive | generate_images.py:76-90 | the conversion branch taken belongs to the variable (K to °F for temp, wind speed for wind, m to in for snow, unconverted for refc) and reads only fields the dataset has |
| Frames.WindFieldFallback | generate_images.py:80-82 | wind succeeds exactly when each component is present under its 10 m name or its bare name; the 10 m names win when present |
| GenerateImages.Attempt | generate_images.py:72-117 | a saved frame carries its model, variable and hour, is smoothed exactly when the variable is not `refc`, and used that variable's branch |
| GenerateImages.UntilFirstFailure | generate_images.py:64-120 | the frames of an hour are the successes of the variables in table order, up to the first variable that fails, which ends the hour |
| GenerateImages.UntilFirstFailureUnique | generate_images.py:64-120 | those properties determine the frames of an hour uniquely |
| GenerateImages.HourFramesSound | generate_images.py:64-120 | every frame saved at an hour was produced: `Herbie` was built, every earlier variable of the table succeeded, and this one did |
| GenerateImages.HourFramesComplete | generate_images.py:64-120 | every produced frame of an hour is saved |
| GenerateImages.HourFramesExactly | generate_images.py:64-120 | a frame is saved at an hour if and only if it was produced there; only that hour's outcomes decide it |
| GenerateImages.FramesThroughExactly | generate_images.py:63-120 | a frame is saved for hours 1..n if and only if its hour is at most n and it was produced at that hour; a failure in one hour never affects another |
| GenerateImages.ConcatMembers | generate_images.py:63-67 | a frame is among those of hours 1..n exactly when it is among those of the hour it names, and that hour is at most n |
| GenerateImages.HourFramesOrdered | generate_images.py:67 | the frames of one hour all belong to it and the model, in `VARIABLES` order |
| GenerateImages.AppendHour | generate_images.py:63-67 | appending the next hour's frames keeps the list ordered by hour, then table position |
| GenerateImages.FramesThroughOrdered | generate_images.py:63-67 | the frames of hours 1..n have hours in 1..n, never hour 0, ascending, with variables in table order and none repeated |
| GenerateImages.ModelFramesExactly | generate_images.py:45-63 | without a run nothing is saved; with a run, a frame is saved exactly when its hour is at most `max_fxx` and it was produced; the list is ordered and all of one model |
| GenerateImages.ProcessHour | generate_images.py:64-120 | the variables loop of one hour saves exactly the frames of that hour |
| GenerateImages.ProcessModel | generate_images.py:45-120 | `process_model` finds the latest run and saves exactly the produced frames of hours 1..`max_fxx` in order; nothing when no run is found |
| GenerateImages.GenerateAll | generate_images.py:122-124 | the script processes HRRR and then RRFS, each from its own clock reading |
| Frames.FrameFileShape | generate_images.py:113 | the file name `fNN.png` has no '/' and holds the zero-padded hour between `f` and `.png` |
| Frames.FrameFileInjective | generate_images.py:113 | distinct hours give distinct file names |
| Frames.FrameFolderInjective | generate_images.py:68 | distinct (model, variable) pairs give distinct folders, whatever the model name |
| Frames.FramePathInjective | generate_images.py:68-113 | distinct (model, variable, hour) triples give distinct frame paths |
| GenerateImages.DistinctPaths | generate_images.py:68-113 | ordered frame lists of two different models name no file twice |
| GenerateImages.GenerateAllWritesDistinctFiles | generate_images.py:113-124 | no frame path is written twice in one run of the script |
| Format.Decimal | generate_images.py:113 | the decimal numeral of a number is all digits, without a leading zero from 10 on, and at most two characters below 100 |
| Format.ZeroPad2 | generate_images.py:113 | `{fxx:02d}` is all digits, exactly two characters below 100, and unpadded from 10 on |
| Format.DecimalRoundTrip | generate_images.py:113 | reading the decimal numeral back gives the number |
| Format.ZeroPad2RoundTrip | generate_images.py:113 | reading the padded numeral back gives the number |
| Format.ZeroPad2Injective | generate_images.py:113 | distinct hours get distinct padded numerals |
| PlotModels.TempVar | scripts/plot_models.py:39 | the field is `t2m` or `t`, and it is `t2m` exactly when the dataset has `t2m`; the chosen field exists exactly when `t2m` or `t` does |
| PlotModels.PlotTemperature | scripts/plot_models.py:12-82 | tries `start - h` hours for h = 0..12 in order and stops after the first success; `found_data` is true exactly when some candidate succeeded, and it then plots that first successful candidate and writes exactly one image, `images/{name}_temp.png`; otherwise it writes nothing |
| PlotModels.PlottedRunIsFirstSuccess | scripts/plot_models.py:19-79 | nothing is plotted exactly when every candidate gave `None`, raised, lacked the temperature field or failed to save; otherwise the plotted candidate is the most recent success |
| PlotModels.PlotAll | scripts/plot_models.py:94-95 | the models are processed in table order, each with its own clock reading; each one's result depends on nothing but its own search |
| PlotModels.SavedThroughPrefix | scripts/plot_models.py:94-95 | results of later models do not change what earlier iterations saved |
| PlotModels.SavedThroughExactly | scripts/plot_models.py:94-95 | a path is saved exactly when it is the output path of a model that found data |
| PlotModels.OutputPathInjective | scripts/plot_models.py:70 | distinct dictionary keys give distinct output paths |
| PlotModels.SavedThroughDistinct | scripts/plot_models.py:70-95 | with distinct keys, no image is saved twice |
| PlotModels.ModelsWriteDistinctFiles | scripts/plot_models.py:85-90 | `nam` and `nam3k` share the model `nam`, yet no two table entries write the same file |
| PlotModels.PlotCatalog | scripts/plot_models.py:85-95 | run on the `models` table, the saved images are exactly those of the models that found data, none saved twice |

| Catalog.Variables | generate_images.py:23-28 | definition; no contract: the four keys in dictionary order |
| Catalog.Config | generate_images.py:23-28 | definition; no contract: each key's search pattern, colour map, range and label |
| Frames.Smoothed | generate_images.py:103 | definition; no contract: every variable but `refc` is smoothed |
| Frames.FrameFolder | generate_images.py:68 | definition; no contract: `frames_{model}_{var}` |
| Frames.FrameFile | generate_images.py:113 | definition; no contract: `f{fxx:02d}.png` |
| Frames.FramePath | generate_images.py:68-113 | definition; no contract: the folder, `/`, the file name |
| GenerateImages.ProbeHour | generate_images.py:38 | definition; no contract: the probe's time string keeps the hour and drops the minutes |
| GenerateImages.RunAccepted | generate_images.py:36-42 | definition; no contract: a candidate is taken when its F01 inventory is listed |
| GenerateImages.LatestRun | generate_images.py:31-43 | definition; no contract: the first accepted candidate of the twelve, else nothing |
| GenerateImages.ProbeCount | generate_images.py:34-43 | definition; no contract: the number of candidates probed before returning |
| GenerateImages.IsLongRun | generate_images.py:54 | definition; no contract: the run hour is one of 0, 6, 12, 18 |
| GenerateImages.HourFrames | generate_images.py:64-120 | definition; no contract: nothing if `Herbie` raised, else the variables' frames up to the first failure |
| GenerateImages.FramesThrough | generate_images.py:63-120 | definition; no contract: the frames of hours 1..n, hour after hour |
| GenerateImages.ModelFrames | generate_images.py:45-63 | definition; no contract: nothing without a run, else the frames of hours 1..`max_fxx` |
| GenerateImages.Produced | generate_images.py:64-120 | definition; no contract: `Herbie` was built for the frame's hour, every earlier variable of the table succeeded, and this one produced the frame |
| PlotModels.Models | scripts/plot_models.py:85-90 | definition; no contract: the four dictionary entries in insertion order |
| PlotModels.Accepts | scripts/plot_models.py:22-79 | definition; no contract: a candidate succeeds when a dataset came back, its temperature field exists and the image was saved |
| PlotModels.PlottedRun | scripts/plot_models.py:19-79 | definition; no contract: the first successful candidate of the thirteen, else nothing |
| PlotModels.TryCount | scripts/plot_models.py:19-79 | definition; no contract: the number of candidates tried before the loop ends |
| PlotModels.OutputPath | scripts/plot_models.py:70 | definition; no contract: `images/{name}_temp.png` |
| PlotModels.SavedThrough | scripts/plot_models.py:94-95 | definition; no contract: the images saved by the first n models, given which ones found data |

## Left out

- Herbie, `inventory()` and `xarray()`: network and foreign library calls. They are oracles; only their observable outcome is modelled.
- Plotting and saving: matplotlib, cartopy, `gaussian_filter`, `savefig`, `os.makedirs` and titles are rendering and filesystem I/O. A frame records only its path, its conversion branch and whether it is smoothed. The render oracle says whether plotting and saving completed.
- The unit conversions K to °F, the √(u² + v²) · 2.237 wind speed and · 39.37: floating-point array arithmetic. Only the branch and the fields it reads are modelled.
- `datetime.utcnow()` and `strftime`: each clock reading is a parameter and time is in whole minutes. The seconds of the clock are dropped.
- `print` messages (progress, errors, "Could not find recent data") and `warnings.filterwarnings`: output and global configuration.
- Frames.Derive: `'u10' in ds` in xarray also looks at coordinate names. The model checks only the names of the data variables.
- PlotModels.TempVar: `'t2m' in ds` and `ds[temp_var]` also find coordinates. The model looks only at the data variables.
- Frames.Derive: a variable key outside the four branches would reuse a stale `data` or raise in Python. The table has only four keys, which the enumeration `VarKey` makes total.
- GenerateImages.Attempt: an exception raised after `savefig` completed, by `plt.close()` or the `print`, is not modelled. A saved frame counts as saved.
- PlotModels.PlotTemperature: an exception raised after `savefig` completed, by `plt.close()` or the success `print`, is not modelled. In the script it is caught, `found_data` stays false and older candidates are tried and can overwrite the image. The failure `print` outside the `try` can also raise out of `plot_temperature`, and that would stop `PlotAll` before the remaining models. The model assumes these calls return normally, so `PlotTemperature` writes at most one image and `PlotAll` treats every model.
- PlotModels.PlotAll: the same unmodelled exceptions after `savefig` and in the failure `print` could stop the driver loop early. The model runs every model of the table.
