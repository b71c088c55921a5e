/** The MRTransform wrapper around the sparse2d multiresolution library:
    the checks its constructor makes on the integer codes it is given, the
    output-path check of Save, and the MultiResol object that the first
    Transform allocates once and later calls reuse. The library's enumeration
    extents and default codes are parameters (LibConsts); the filter-bank
    lookup, the analysis and the synthesis are functions passed in. */
module Sparse2D {
  import opened Wrappers

  /** The library constants the constructor compares against. */
  datatype LibConsts = LibConsts(
    nbrTotTransform: int,
    nbrLift: int,
    maxScale: int,
    nbrUndecFilter: int,
    toLifting: int,
    toMallat: int,
    toUndecimatedMallat: int,
    defLift: int,
    fMallat79: int,
    defUnderFilter: int)

  /** The constructor's arguments (the source's defaults are 3, 4, 3, 1,
      false, 2 for the ones after the first). */
  datatype Args = Args(
    typeOfMultiresolutionTransform: int,
    typeOfLiftingTransform: int,
    numberOfScales: int,
    iter: int,
    typeOfFilters: int,
    useL2Norm: bool,
    typeOfNonOrthogFilters: int,
    verbose: int)

  datatype Norm = NormL1 | NormL2

  /** The fields the constructor fills in. */
  datatype Settings = Settings(
    args: Args,
    mrTransform: int,
    liftTransform: int,
    filter: int,
    norm: Norm,
    noFilter: int,
    nbOfUndecimatedScales: int)

  /** The std::invalid_argument messages of the constructor, in order. */
  datatype ConfigError =
    | InvalidTransform      // "Invalid MR transform number."
    | InvalidLifting        // "Invalid lifting transform number."
    | BadScales             // "Bad number of scales ]1; MAX_SCALE]."
    | BadIter               // "Bad number of iteration ]1; 20]."
    | LiftingOptionMisused  // "-l option is only available with lifting transform."
    | MallatOptionMisused   // "-T and -L options are only valid with Mallat transform."

  predicate TransformInRange(c: LibConsts, a: Args)
  {
    0 < a.typeOfMultiresolutionTransform <= c.nbrTotTransform + 1
  }

  predicate LiftingInRange(c: LibConsts, a: Args)
  {
    0 < a.typeOfLiftingTransform <= c.nbrLift
  }

  predicate ScalesInRange(c: LibConsts, a: Args)
  {
    1 < a.numberOfScales <= c.maxScale
  }

  predicate IterInRange(a: Args)
  {
    1 < a.iter <= 20
  }

  /** The filter bank: F_MALLAT_7_9 for code 1, otherwise the library's
      lookup of the code. */
  function FilterOf(c: LibConsts, a: Args, filterBank: int -> int): int
  {
    if a.typeOfFilters != 1 then filterBank(a.typeOfFilters) else c.fMallat79
  }

  predicate IsMallat(c: LibConsts, transform: int)
  {
    transform == c.toMallat || transform == c.toUndecimatedMallat
  }

  /** The constructor: the four range checks, then the settings, then the two
      cross-checks. The first failing check decides the error. */
  function Validate(c: LibConsts, a: Args, filterBank: int -> int): (r: Result<Settings, ConfigError>)
    ensures r == Err(InvalidTransform) <==> !TransformInRange(c, a)
    ensures r == Err(InvalidLifting) <==> TransformInRange(c, a) && !LiftingInRange(c, a)
    ensures r == Err(BadScales) <==> TransformInRange(c, a) && LiftingInRange(c, a) && !ScalesInRange(c, a)
    ensures r == Err(BadIter) <==>
      TransformInRange(c, a) && LiftingInRange(c, a) && ScalesInRange(c, a) && !IterInRange(a)
    ensures r.Ok? ==>
      && r.value.args == a
      && r.value.mrTransform == a.typeOfMultiresolutionTransform - 1
      && r.value.liftTransform == a.typeOfLiftingTransform
      && (r.value.norm == NormL2 <==> a.useL2Norm)
      && r.value.nbOfUndecimatedScales == 1
      && (0 < a.typeOfNonOrthogFilters <= c.nbrUndecFilter ==> r.value.noFilter == a.typeOfNonOrthogFilters - 1)
      && (!(0 < a.typeOfNonOrthogFilters <= c.nbrUndecFilter) ==> r.value.noFilter == c.defUnderFilter)
  {
    if !TransformInRange(c, a) then Err(InvalidTransform)
    else if !LiftingInRange(c, a) then Err(InvalidLifting)
    else if !ScalesInRange(c, a) then Err(BadScales)
    else if !IterInRange(a) then Err(BadIter)
    else
      var mrTransform := a.typeOfMultiresolutionTransform - 1;
      var liftTransform := a.typeOfLiftingTransform;
      var filter := FilterOf(c, a, filterBank);
      var norm := if a.useL2Norm then NormL2 else NormL1;
      var noFilter :=
        if 0 < a.typeOfNonOrthogFilters <= c.nbrUndecFilter then a.typeOfNonOrthogFilters - 1
        else c.defUnderFilter;
      if mrTransform != c.toLifting && liftTransform != c.defLift then Err(LiftingOptionMisused)
      else if !IsMallat(c, mrTransform) && (a.useL2Norm || filter != c.fMallat79) then Err(MallatOptionMisused)
      else Ok(Settings(a, mrTransform, liftTransform, filter, norm, noFilter, 1))
  }

  /** Exactly the argument lists that pass every check are accepted. */
  lemma ValidateAcceptsExactly(c: LibConsts, a: Args, filterBank: int -> int)
    ensures Validate(c, a, filterBank).Ok? <==>
      && TransformInRange(c, a) && LiftingInRange(c, a) && ScalesInRange(c, a) && IterInRange(a)
      && (a.typeOfMultiresolutionTransform - 1 == c.toLifting || a.typeOfLiftingTransform == c.defLift)
      && (IsMallat(c, a.typeOfMultiresolutionTransform - 1) || (!a.useL2Norm && FilterOf(c, a, filterBank) == c.fMallat79))
  {
  }

  /** An accepted configuration never combines a lifting option with a
      transform other than lifting, nor the L2 norm or a filter other than
      7/9 with a transform other than the Mallat ones. */
  lemma AcceptedIsConsistent(c: LibConsts, a: Args, filterBank: int -> int)
    requires Validate(c, a, filterBank).Ok?
    ensures var s := Validate(c, a, filterBank).value;
      && (s.liftTransform != c.defLift ==> s.mrTransform == c.toLifting)
      && (s.norm == NormL2 ==> IsMallat(c, s.mrTransform))
      && (s.filter != c.fMallat79 ==> IsMallat(c, s.mrTransform))
      && 0 <= s.mrTransform <= c.nbrTotTransform
      && 2 <= s.args.numberOfScales <= c.maxScale
  {
  }

  type Image = seq<seq<real>>

  /** The library's MultiResol object: not yet allocated, or allocated for an
      image size with the settings in force, holding its bands. */
  datatype MultiResol =
    | Unallocated
    | Allocated(nl: int, nc: int, nbrScale: int, transform: int, analysisFilter: Option<int>,
                norm: Norm, nbrUndecScale: int, noFilter: int, liftingTrans: Option<int>,
                bands: seq<Image>)

  function Rows(arr: Image): nat { |arr| }
  function Cols(arr: Image): nat { if arr == [] then 0 else |arr[0]| }

  /** mr.alloc with the settings: the analysis filter bank only for the
      Mallat transforms, the lifting scheme only for the lifting transform. */
  function Alloc(c: LibConsts, s: Settings, nl: int, nc: int): (m: MultiResol)
    ensures m.Allocated? && m.nl == nl && m.nc == nc && m.nbrScale == s.args.numberOfScales
    ensures m.transform == s.mrTransform && m.norm == s.norm && m.noFilter == s.noFilter
    ensures m.analysisFilter.Some? <==> IsMallat(c, s.mrTransform)
    ensures m.liftingTrans.Some? <==> s.mrTransform == c.toLifting
    ensures m.bands == []
  {
    Allocated(nl, nc, s.args.numberOfScales, s.mrTransform,
              if IsMallat(c, s.mrTransform) then Some(s.filter) else None,
              s.norm, s.nbOfUndecimatedScales, s.noFilter,
              if s.mrTransform == c.toLifting then Some(s.liftTransform) else None,
              [])
  }

  datatype SaveError = EmptyOutputPath  // "Please specify an output image path in 'opath'."

  /** mr.insert_band for the bands 0 .. |data| - 1: the first |data| bands
      replaced, the others kept. */
  function InsertBands(bands: seq<Image>, data: seq<Image>): (r: seq<Image>)
    requires |data| <= |bands|
    ensures |r| == |bands|
    ensures forall s :: 0 <= s < |data| ==> r[s] == data[s]
    ensures forall s :: |data| <= s < |bands| ==> r[s] == bands[s]
  {
    data + bands[|data|..]
  }

  /** Inserting the bands an object already holds changes nothing. */
  lemma InsertOwnBands(bands: seq<Image>)
    ensures InsertBands(bands, bands) == bands
  {
  }

  /** Inserting the same bands twice is inserting them once. */
  lemma InsertBandsIdempotent(bands: seq<Image>, data: seq<Image>)
    requires |data| <= |bands|
    ensures InsertBands(InsertBands(bands, data), data) == InsertBands(bands, data)
  {
  }

  class MRTransform {
    const consts: LibConsts
    const settings: Settings
    var mr: MultiResol
    var mrInitialized: bool
    var opath: string

    /** The object as the constructor leaves it and as Transform keeps it:
        the MultiResol object is allocated exactly when the flag is set. */
    predicate Valid()
      reads this
    {
      mrInitialized <==> mr.Allocated?
    }

    /** The constructor for arguments that pass Validate: nothing allocated
        yet, and an empty output path. */
    constructor (c: LibConsts, a: Args, filterBank: int -> int)
      requires Validate(c, a, filterBank).Ok?
      ensures Valid()
      ensures consts == c && settings == Validate(c, a, filterBank).value
      ensures !mrInitialized && mr == Unallocated && opath == ""
    {
      consts := c;
      settings := Validate(c, a, filterBank).value;
      mr := Unallocated;
      mrInitialized := false;
      opath := "";
    }

    /** The constructor as the source runs it: an argument list that fails a
        check is refused with that check's error, and an accepted one gives a
        new object with nothing allocated. */
    static method Create(c: LibConsts, a: Args, filterBank: int -> int) returns (r: Result<MRTransform, ConfigError>)
      ensures r.Err? <==> Validate(c, a, filterBank).Err?
      ensures r.Err? ==> r.error == Validate(c, a, filterBank).error
      ensures r.Ok? ==> fresh(r.value) && r.value.Valid() && !r.value.mrInitialized && r.value.opath == ""
      ensures r.Ok? ==> r.value.consts == c && r.value.settings == Validate(c, a, filterBank).value
    {
      var v := Validate(c, a, filterBank);
      if v.Err? {
        return Err(v.error);
      }
      var t := new MRTransform(c, a, filterBank);
      return Ok(t);
    }

    method SetOpath(path: string)
      modifies this
      ensures opath == path && mr == old(mr) && mrInitialized == old(mrInitialized)
    {
      opath := path;
    }

    /** Save: an empty output path is refused; writing the file is not part of
        the model. */
    method Save(m: MultiResol) returns (r: Result<(), SaveError>)
      ensures r.Err? <==> opath == ""
    {
      if opath == "" {
        return Err(EmptyOutputPath);
      }
      return Ok(());
    }

    /** Transform: the first call allocates the MultiResol object for the
        image's size and sets the flag; later calls reuse it as it is, even
        for an image of another size. The analysis (with the pyramidal
        correction) fills the bands, which are returned one by one; with
        `save`, an empty output path fails after the bands are computed. */
    method Transform(arr: Image, save: bool, analyse: (MultiResol, Image) -> seq<Image>)
      returns (r: Result<seq<Image>, SaveError>)
      requires Valid()
      modifies this
      ensures Valid() && mrInitialized
      ensures old(mrInitialized) ==> mr == old(mr).(bands := analyse(old(mr), arr))
      ensures !old(mrInitialized) ==>
        var m0 := Alloc(consts, settings, Rows(arr), Cols(arr));
        mr == m0.(bands := analyse(m0, arr))
      ensures opath == old(opath)
      ensures r.Err? <==> save && opath == ""
      ensures r.Ok? ==> r.value == mr.bands
    {
      if !mrInitialized {
        mr := Alloc(consts, settings, Rows(arr), Cols(arr));
        mrInitialized := true;
      }
      mr := mr.(bands := analyse(mr, arr));

      if save {
        var saved := Save(mr);
        if saved.Err? {
          return Err(saved.error);
        }
      }

      var mrData := [];
      for s := 0 to |mr.bands|
        invariant mrData == mr.bands[..s]
      {
        mrData := mrData + [mr.bands[s]];
      }
      return Ok(mrData);
    }

    /** Reconstruct: the given bands are inserted into the MultiResol object
        one by one, in place of its first bands, and the synthesis then runs
        on it. The object must hold at least that many bands. */
    method Reconstruct(mrData: seq<Image>, synthesise: MultiResol -> Image) returns (img: Image)
      requires Valid() && mr.Allocated? && |mrData| <= |mr.bands|
      modifies this
      ensures Valid()
      ensures mr == old(mr).(bands := InsertBands(old(mr.bands), mrData))
      ensures mrInitialized == old(mrInitialized) && opath == old(opath)
      ensures img == synthesise(mr)
    {
      for s := 0 to |mrData|
        invariant mr == old(mr).(bands := mrData[..s] + old(mr.bands)[s..])
        invariant mrInitialized == old(mrInitialized) && opath == old(opath)
      {
        assert mrData[..s + 1] + old(mr.bands)[s + 1..] == (mrData[..s] + old(mr.bands)[s..])[s := mrData[s]];
        mr := mr.(bands := mr.bands[s := mrData[s]]);
      }
      assert mrData[..|mrData|] == mrData;
      img := synthesise(mr);
    }
  }
}
