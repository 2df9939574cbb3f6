/** Lazy loading of the look-up tables of a Sentinel-1 product: which xml
    file each LUT is read from, which LUTs carry a polarisation dimension,
    and the name given to each per-file block. */
module LutLoading {
  import opened Common

  /** The three xml columns of the product's file table. */
  datatype FileKind = CalibrationXml | NoiseXml | AnnotationXml

  /** One row of the product's file table: the polarisation (as its category
      code) and the xml file of each kind for that polarisation. */
  datatype FileRow = FileRow(polCode: nat, calibration: string, noise: string, annotation: string)

  /** One block appended to the list of LUTs: the LUT it belongs to, the name
      it is given, its polarisation and the xml file it is read from. */
  datatype LutBlock = LutBlock(lut: string, name: string, pol: string, withPol: bool, file: string)

  /** The LUT names, in the order they are loaded. */
  const LutNames: seq<string> :=
    ["sigma0_lut", "gamma0_lut", "noise_lut_range", "noise_lut_azi", "incidence", "elevation"]

  /** Which xml file each LUT is read from. */
  const MapLutFiles: map<string, FileKind> := map[
    "sigma0_lut" := CalibrationXml,
    "gamma0_lut" := CalibrationXml,
    "noise_lut_range" := NoiseXml,
    "noise_lut_azi" := NoiseXml,
    "incidence" := AnnotationXml,
    "elevation" := AnnotationXml
  ]

  /** Whether a LUT has a polarisation dimension. */
  const VarsWithPol: map<string, bool> := map[
    "sigma0_lut" := true,
    "gamma0_lut" := true,
    "noise_lut_range" := true,
    "noise_lut_azi" := true,
    "incidence" := false,
    "elevation" := false
  ]

  function Column(row: FileRow, kind: FileKind): string
  {
    match kind
    case CalibrationXml => row.calibration
    case NoiseXml => row.noise
    case AnnotationXml => row.annotation
  }

  /** Every row names a polarisation category that exists. */
  predicate WellCoded(files: seq<FileRow>, categories: seq<string>)
  {
    forall k :: 0 <= k < |files| ==> files[k].polCode < |categories|
  }

  /** The block name: `"<lut>_<pol>"` for a per-polarisation LUT, the bare
      LUT name otherwise. */
  function BlockName(lut: string, pol: string, withPol: bool): (name: string)
    ensures withPol ==> |name| == |lut| + 1 + |pol| && name[..|lut|] == lut && name[|lut|] == '_' && name[|lut| + 1..] == pol
    ensures !withPol ==> name == lut
  {
    if withPol then lut + "_" + pol else lut
  }

  function Block(lut: string, kind: FileKind, withPol: bool, row: FileRow, categories: seq<string>): LutBlock
    requires row.polCode < |categories|
  {
    var pol := categories[row.polCode];
    LutBlock(lut, BlockName(lut, pol, withPol), pol, withPol, Column(row, kind))
  }

  /** The rows read for one LUT: all of them for a per-polarisation LUT,
      only the first (`iloc[[0]]`, an IndexError on an empty table)
      otherwise. */
  function RowsFor(withPol: bool, files: seq<FileRow>): (r: Result<seq<FileRow>>)
    ensures withPol ==> r == Success(files)
    ensures !withPol && |files| == 0 ==> r == Failure(IndexError)
    ensures !withPol && |files| > 0 ==> r == Success([files[0]])
  {
    if withPol then Success(files)
    else if |files| == 0 then Failure(IndexError)
    else Success([files[0]])
  }

  /** The blocks of one LUT, or the error raised while looking it up. */
  function BlocksFor(lut: string, files: seq<FileRow>, categories: seq<string>): Result<seq<LutBlock>>
    requires WellCoded(files, categories)
  {
    if lut !in MapLutFiles then Failure(KeyError(lut))
    else if lut !in VarsWithPol then Failure(KeyError(lut))
    else
      var rows :- RowsFor(VarsWithPol[lut], files);
      Success(seq(|rows|, k requires 0 <= k < |rows| =>
        Block(lut, MapLutFiles[lut], VarsWithPol[lut], rows[k], categories)))
  }

  /** Some block carries a polarisation dimension: only then does the
      combination of the blocks have a `pol_code` coordinate. */
  predicate HasPolBlock(blocks: seq<LutBlock>)
  {
    exists k :: 0 <= k < |blocks| && blocks[k].withPol
  }

  /** All blocks of `names`, in loading order; the first LUT that fails
      decides the error. After each name the blocks so far are combined and
      their `pol_code` read, an AttributeError while no block has one. */
  function LoadSpec(names: seq<string>, files: seq<FileRow>, categories: seq<string>): Result<seq<LutBlock>>
    requires WellCoded(files, categories)
  {
    if |names| == 0 then Success([])
    else
      var before :- LoadSpec(names[..|names| - 1], files, categories);
      var last :- BlocksFor(names[|names| - 1], files, categories);
      if HasPolBlock(before + last) then Success(before + last)
      else Failure(AttributeError("pol_code"))
  }

  /** Appending one block: a polarisation block is there after it exactly
      when it was there before or the new block is one. */
  lemma PolBlockAppend(blocks: seq<LutBlock>, b: LutBlock)
    ensures HasPolBlock(blocks + [b]) <==> HasPolBlock(blocks) || b.withPol
  {
    var all := blocks + [b];
    if HasPolBlock(blocks) {
      var k :| 0 <= k < |blocks| && blocks[k].withPol;
      assert all[k] == blocks[k];
    }
    if b.withPol {
      assert all[|blocks|] == b;
    }
    if HasPolBlock(all) {
      var k :| 0 <= k < |all| && all[k].withPol;
      if k < |blocks| {
        assert blocks[k] == all[k];
      }
    }
  }

  /** A polarisation block stays there whatever is appended. */
  lemma PolBlockKept(blocks: seq<LutBlock>, more: seq<LutBlock>)
    requires HasPolBlock(blocks)
    ensures HasPolBlock(blocks + more)
  {
    var k :| 0 <= k < |blocks| && blocks[k].withPol;
    assert (blocks + more)[k] == blocks[k];
  }

  /** After a first name that loads, the `pol_code` read never fails again:
      the blocks of every further name that loads are simply appended. */
  lemma LoadExtends(names: seq<string>, files: seq<FileRow>, categories: seq<string>)
    requires WellCoded(files, categories)
    requires |names| > 1
    requires LoadSpec(names[..|names| - 1], files, categories).Success?
    requires BlocksFor(names[|names| - 1], files, categories).Success?
    ensures LoadSpec(names, files, categories) ==
              Success(LoadSpec(names[..|names| - 1], files, categories).value + BlocksFor(names[|names| - 1], files, categories).value)
  {
    var init := names[..|names| - 1];
    var before := LoadSpec(init, files, categories).value;
    var last := BlocksFor(names[|names| - 1], files, categories).value;
    var earlier := LoadSpec(init[..|init| - 1], files, categories);
    var lastOfInit := BlocksFor(init[|init| - 1], files, categories);
    assert earlier.Success? && lastOfInit.Success?;
    assert before == earlier.value + lastOfInit.value && HasPolBlock(before);
    PolBlockKept(before, last);
  }

  /** `_lazy_load_luts`: the nested loop over LUT names and file rows that
      appends one block per file read, and after each name combines the
      blocks and reads their `pol_code`. An empty list of names leaves the
      combined result unbound. */
  method LazyLoadLuts(names: seq<string>, files: seq<FileRow>, categories: seq<string>)
    returns (r: Result<seq<LutBlock>>)
    requires WellCoded(files, categories)
    ensures |names| == 0 ==> r == Failure(UnboundLocalError("luts"))
    ensures |names| > 0 ==> r == LoadSpec(names, files, categories)
  {
    var blocks: seq<LutBlock> := [];
    var polSeen := false;
    for i := 0 to |names|
      invariant LoadSpec(names[..i], files, categories) == Success(blocks)
      invariant polSeen <==> HasPolBlock(blocks)
    {
      var lut := names[i];
      assert names[..i + 1][..i] == names[..i];
      if lut !in MapLutFiles {
        r := Failure(KeyError(lut));
        FailureSticks(names, i + 1, files, categories);
        return;
      }
      var kind := MapLutFiles[lut];
      var withPol := VarsWithPol[lut];
      var rows := files;
      if !withPol {
        if |files| == 0 {
          r := Failure(IndexError);
          FailureSticks(names, i + 1, files, categories);
          return;
        }
        rows := [files[0]];
      }
      var before := blocks;
      for j := 0 to |rows|
        invariant blocks == before + seq(j, k requires 0 <= k < j => Block(lut, kind, withPol, rows[k], categories))
        invariant polSeen <==> HasPolBlock(blocks)
      {
        var pol := categories[rows[j].polCode];
        var name := if withPol then lut + "_" + pol else lut;
        var b := LutBlock(lut, name, pol, withPol, Column(rows[j], kind));
        PolBlockAppend(blocks, b);
        blocks := blocks + [b];
        polSeen := polSeen || withPol;
      }
      if !polSeen {
        r := Failure(AttributeError("pol_code"));
        FailureSticks(names, i + 1, files, categories);
        return;
      }
    }
    assert names[..|names|] == names;
    if |names| == 0 {
      return Failure(UnboundLocalError("luts"));
    }
    return Success(blocks);
  }

  /** Once a prefix of the names fails, loading all of them fails with the
      same error. */
  lemma {:induction false} FailureSticks(names: seq<string>, i: nat, files: seq<FileRow>, categories: seq<string>)
    requires WellCoded(files, categories)
    requires i <= |names|
    requires LoadSpec(names[..i], files, categories).Failure?
    ensures LoadSpec(names, files, categories) == LoadSpec(names[..i], files, categories)
    decreases |names|
  {
    if i < |names| {
      var init := names[..|names| - 1];
      assert init[..i] == names[..i];
      FailureSticks(init, i, files, categories);
    } else {
      assert names[..i] == names;
    }
  }

  /** A per-polarisation LUT is read once per file row, each block named
      `"<lut>_<pol>"` after the row's polarisation. */
  lemma PerPolBlocks(lut: string, files: seq<FileRow>, categories: seq<string>)
    requires WellCoded(files, categories)
    requires lut in MapLutFiles && VarsWithPol[lut]
    ensures BlocksFor(lut, files, categories).Success?
    ensures var bs := BlocksFor(lut, files, categories).value;
            |bs| == |files| &&
            forall k :: 0 <= k < |bs| ==>
              bs[k].name == lut + "_" + categories[files[k].polCode] &&
              bs[k].file == Column(files[k], MapLutFiles[lut])
  {
  }

  /** A polarisation-invariant LUT is read from the first file only; with
      no file at all, loading it is an IndexError. */
  lemma InvariantLutFirstFile(lut: string, files: seq<FileRow>, categories: seq<string>)
    requires WellCoded(files, categories)
    requires lut in MapLutFiles && !VarsWithPol[lut]
    ensures |files| == 0 <==> BlocksFor(lut, files, categories) == Failure(IndexError)
    ensures |files| > 0 ==>
              var bs := BlocksFor(lut, files, categories).value;
              |bs| == 1 && bs[0].name == lut && bs[0].file == Column(files[0], MapLutFiles[lut])
  {
  }

  /** Loading the six LUT names of the product reads one block per file for
      each of the four per-polarisation LUTs and one for each of the two
      others. */
  lemma {:induction false} LoadAllCount(files: seq<FileRow>, categories: seq<string>)
    requires WellCoded(files, categories)
    requires |files| > 0
    ensures LoadSpec(LutNames, files, categories).Success?
    ensures |LoadSpec(LutNames, files, categories).value| == 4 * |files| + 2
  {
    var n := LutNames;
    assert n[..0] == [];
    assert n[..1][..0] == [];
    assert n[..2][..1] == n[..1];
    assert n[..3][..2] == n[..2];
    assert n[..4][..3] == n[..3];
    assert n[..5][..4] == n[..4];
    assert n[..6][..5] == n[..5];
    assert n[..6] == n;
    PerPolBlocks(n[0], files, categories);
    PerPolBlocks(n[1], files, categories);
    PerPolBlocks(n[2], files, categories);
    PerPolBlocks(n[3], files, categories);
    InvariantLutFirstFile(n[4], files, categories);
    InvariantLutFirstFile(n[5], files, categories);
    assert LoadSpec(n[..0], files, categories) == Success([]);
    var first := BlocksFor(n[0], files, categories).value;
    assert first[0].withPol;
    assert [] + first == first;
    assert HasPolBlock([] + first);
    assert |LoadSpec(n[..1], files, categories).value| == |files|;
    LoadExtends(n[..2], files, categories);
    LoadExtends(n[..3], files, categories);
    LoadExtends(n[..4], files, categories);
    LoadExtends(n[..5], files, categories);
    LoadExtends(n[..6], files, categories);
    assert |LoadSpec(n[..2], files, categories).value| == 2 * |files|;
    assert |LoadSpec(n[..3], files, categories).value| == 3 * |files|;
    assert |LoadSpec(n[..4], files, categories).value| == 4 * |files|;
    assert |LoadSpec(n[..5], files, categories).value| == 4 * |files| + 1;
  }

  /** A name outside the file map is a KeyError, whatever comes after it. */
  lemma {:induction false} UnknownLutFails(names: seq<string>, files: seq<FileRow>, categories: seq<string>)
    requires WellCoded(files, categories)
    requires |names| > 0 && names[|names| - 1] !in MapLutFiles
    requires LoadSpec(names[..|names| - 1], files, categories).Success?
    ensures LoadSpec(names, files, categories) == Failure(KeyError(names[|names| - 1]))
  {
  }

  /** With an empty file table, a first LUT with a polarisation dimension
      appends no block, and reading the combined `pol_code` is an
      AttributeError, whatever names follow. */
  lemma {:induction false} EmptyTableFails(names: seq<string>, categories: seq<string>)
    requires |names| > 0 && names[0] in MapLutFiles && VarsWithPol[names[0]]
    ensures LoadSpec(names, [], categories) == Failure(AttributeError("pol_code"))
  {
    var one := names[..1];
    assert one[..0] == [];
    var bs := BlocksFor(names[0], [], categories);
    assert bs.Success? && |bs.value| == 0;
    assert [] + bs.value == [];
    assert !HasPolBlock([] + bs.value);
    FailureSticks(names, 1, [], categories);
  }

  /** A first LUT without a polarisation dimension is read from one file,
      but its block has no `pol_code`: an AttributeError, whatever names
      follow. */
  lemma {:induction false} InvariantFirstFails(names: seq<string>, files: seq<FileRow>, categories: seq<string>)
    requires WellCoded(files, categories)
    requires |files| > 0
    requires |names| > 0 && names[0] in MapLutFiles && !VarsWithPol[names[0]]
    ensures LoadSpec(names, files, categories) == Failure(AttributeError("pol_code"))
  {
    var one := names[..1];
    assert one[..0] == [];
    var bs := BlocksFor(names[0], files, categories).value;
    assert |bs| == 1 && !bs[0].withPol;
    assert !HasPolBlock([] + bs);
    FailureSticks(names, 1, files, categories);
  }
}
