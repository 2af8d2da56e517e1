/** What generate_images.py produces for one (model, variable, forecast hour):
    the conversion branch chosen for the variable, whether the field is
    smoothed, and the file the frame is saved to. */
module Frames {
  import opened Wrappers
  import opened Format
  import opened Catalog

  /** The field(s) a branch reads from the dataset and the conversion it
      applies; the floating-point arithmetic itself is not modelled. */
  datatype Derivation =
    | KelvinToFahrenheit(field: string)    // (K - 273.15) * 9/5 + 32
    | WindSpeedMph(u: string, v: string)   // sqrt(u^2 + v^2) * 2.237
    | MetersToInches(field: string)        // * 39.37
    | AsIs(field: string)                  // reflectivity, unconverted

  function FieldsRead(d: Derivation): set<string> {
    match d
    case KelvinToFahrenheit(f) => {f}
    case WindSpeedMph(u, v) => {u, v}
    case MetersToInches(f) => {f}
    case AsIs(f) => {f}
  }

  /** The variable whose branch produces a derivation of this shape. */
  function BranchKey(d: Derivation): VarKey {
    match d
    case KelvinToFahrenheit(_) => Temp
    case WindSpeedMph(_, _) => Wind
    case MetersToInches(_) => Snow
    case AsIs(_) => Refc
  }

  /** The dispatch on the variable key, given the names of the data
      variables of the fetched dataset, in order. `None` is the
      exception the branch raises: `ds.t2m` missing, `ds['u']`/`ds['v']`
      missing when the 10 m names are absent, or `list(ds.data_vars)[0]` of
      an empty dataset. */
  function Derive(k: VarKey, names: seq<string>): (r: Option<Derivation>)
    ensures r.Some? ==> BranchKey(r.value) == k
    ensures r.Some? ==> forall f :: f in FieldsRead(r.value) ==> f in names
  {
    match k
    case Temp =>
      if "t2m" in names then Some(KelvinToFahrenheit("t2m")) else None
    case Wind =>
      var u := if "u10" in names then "u10" else "u";
      var v := if "v10" in names then "v10" else "v";
      if u in names && v in names then Some(WindSpeedMph(u, v)) else None
    case Snow =>
      if |names| > 0 then Some(MetersToInches(names[0])) else None
    case Refc =>
      if |names| > 0 then Some(AsIs(names[0])) else None
  }

  /** The wind branch prefers the 10 m names and falls back to the bare ones. */
  lemma WindFieldFallback(names: seq<string>)
    ensures ("u10" in names || "u" in names) && ("v10" in names || "v" in names) <==> Derive(Wind, names).Some?
    ensures "u10" in names && "v10" in names ==> Derive(Wind, names) == Some(WindSpeedMph("u10", "v10"))
    ensures "u10" !in names && "v10" !in names && "u" in names && "v" in names ==>
              Derive(Wind, names) == Some(WindSpeedMph("u", "v"))
  {
  }

  /** Every variable except the radar reflectivity is Gaussian-smoothed. */
  predicate Smoothed(k: VarKey) {
    k != Refc
  }

  /** One saved frame. */
  datatype Frame = Frame(model: string, key: VarKey, fxx: nat, field: Derivation, smoothed: bool)

  /** `f"frames_{model_name}_{var_name}"` */
  function FrameFolder(model: string, k: VarKey): string {
    "frames_" + model + "_" + KeyName(k)
  }

  /** The file name inside the folder, `f"f{fxx:02d}.png"`. */
  function FrameFile(fxx: nat): string {
    "f" + ZeroPad2(fxx) + ".png"
  }

  /** `f"{folder}/f{fxx:02d}.png"` */
  function FramePath(model: string, k: VarKey, fxx: nat): string {
    FrameFolder(model, k) + "/" + FrameFile(fxx)
  }

  lemma FrameFileShape(fxx: nat)
    ensures '/' !in FrameFile(fxx)
    ensures FrameFile(fxx)[1..|FrameFile(fxx)| - 4] == ZeroPad2(fxx)
  {
    var t := FrameFile(fxx);
    forall i | 0 <= i < |t| ensures t[i] != '/' {
      if 1 <= i < |t| - 4 { assert t[i] == ZeroPad2(fxx)[i - 1]; }
    }
  }

  lemma FrameFileInjective(f1: nat, f2: nat)
    requires FrameFile(f1) == FrameFile(f2)
    ensures f1 == f2
  {
    FrameFileShape(f1);
    FrameFileShape(f2);
    ZeroPad2Injective(f1, f2);
  }

  lemma FrameFolderInjective(m1: string, k1: VarKey, m2: string, k2: VarKey)
    requires FrameFolder(m1, k1) == FrameFolder(m2, k2)
    ensures m1 == m2 && k1 == k2
  {
    assert FrameFolder(m1, k1) == ("frames_" + m1) + ['_'] + KeyName(k1);
    assert FrameFolder(m2, k2) == ("frames_" + m2) + ['_'] + KeyName(k2);
    SplitAtLast("frames_" + m1, KeyName(k1), "frames_" + m2, KeyName(k2), '_');
    KeyNameInjective(k1, k2);
    assert m1 == ("frames_" + m1)[7..];
    assert m2 == ("frames_" + m2)[7..];
  }

  /** Distinct (model, variable, hour) triples never share a file, whatever
      the model name: the path splits uniquely from the right, because
      neither the variable key nor the padded hour contains '_' or '/'. */
  lemma FramePathInjective(m1: string, k1: VarKey, f1: nat, m2: string, k2: VarKey, f2: nat)
    requires FramePath(m1, k1, f1) == FramePath(m2, k2, f2)
    ensures m1 == m2 && k1 == k2 && f1 == f2
  {
    FrameFileShape(f1);
    FrameFileShape(f2);
    SplitAtLast(FrameFolder(m1, k1), FrameFile(f1), FrameFolder(m2, k2), FrameFile(f2), '/');
    FrameFileInjective(f1, f2);
    FrameFolderInjective(m1, k1, m2, k2);
  }
}
