/** The RadarSat-2 dataset identifier `RADARSAT2_DS:<path>:<subdataset>`
    and the names derived from it: the short name (path reduced to its last
    component), the path, the product directory name, and the product type
    and swath read off the `_`-separated fields of that directory name. */
module RadarSat2Names {
  import opened Common

  const Prefix: string := "RADARSAT2_DS:"

  predicate HasPrefix(name: string)
  {
    |Prefix| <= |name| && name[..|Prefix|] == Prefix
  }

  /** `os.path.basename` (POSIX): what follows the last `/`. */
  function Basename(p: string): (b: string)
    ensures '/' !in b
  {
    var parts := Split(p, '/');
    parts[|parts| - 1]
  }

  /** The names set by the constructor. */
  datatype DatasetName = DatasetName(name: string, shortName: string, path: string, safe: string, product: string)

  /** A bare path is wrapped as `RADARSAT2_DS:<path>:`. */
  function Normalize(name: string): (r: string)
    ensures HasPrefix(r)
    ensures HasPrefix(name) ==> r == name
    ensures !HasPrefix(name) ==> r == Prefix + name + ":"
  {
    if HasPrefix(name) then name else Prefix + name + ":"
  }

  /** The `:`-pieces of the name with everything between the first and the
      last piece joined back (a Windows drive letter brings its own `:`),
      and that middle piece reduced to its basename. */
  function ShortName(parts: seq<string>): string
    requires |parts| >= 2
  {
    var kept := if |parts| > 3 then [parts[0], Join(parts[1..|parts| - 1], ':'), parts[|parts| - 1]] else parts;
    Join(kept[1 := Basename(kept[1])], ':')
  }

  /** `':'.join(name.split(':')[1:-1])` */
  function PathOf(name: string): string
  {
    var parts := Split(name, ':');
    if |parts| < 2 then "" else Join(parts[1..|parts| - 1], ':')
  }

  /** Field 9 of the `_`-separated directory name, `"XXX"` when there is no
      such field. */
  function ProductOf(path: string): string
  {
    var fields := Split(Basename(path), '_');
    if |fields| > 9 then fields[9] else "XXX"
  }

  /** Field 4 of the `_`-separated directory name (the manifest's
      `swath_type`); an IndexError when there is no such field. */
  function SwathOf(path: string): Result<string>
  {
    var fields := Split(Basename(path), '_');
    if |fields| > 4 then Success(fields[4]) else Failure(IndexError)
  }

  /** The name parsing of the constructor. */
  function ParseName(name: string): (r: DatasetName)
    ensures HasPrefix(r.name)
    ensures HasPrefix(name) ==> r.name == name
    ensures r.safe == Basename(r.path)
    ensures r.product == ProductOf(r.path)
  {
    var n := Normalize(name);
    PrefixSplit(n);
    var parts := Split(n, ':');
    var path := PathOf(n);
    DatasetName(n, ShortName(parts), path, Basename(path), ProductOf(path))
  }

  /** A prefixed name splits into `RADARSAT2_DS` and the pieces of the rest. */
  lemma PrefixSplit(n: string)
    requires HasPrefix(n)
    ensures Split(n, ':') == ["RADARSAT2_DS"] + Split(n[|Prefix|..], ':')
    ensures |Split(n, ':')| >= 2
  {
    assert n == "RADARSAT2_DS" + [':'] + n[|Prefix|..];
    SplitCons("RADARSAT2_DS", ':', n[|Prefix|..]);
  }

  /** The basename of `dir/b` is `b` when `b` has no `/`. */
  lemma BasenameOfJoin(dir: string, b: string)
    requires '/' !in b
    ensures Basename(dir + "/" + b) == b
  {
    SplitConcat(dir, '/', b);
    SplitNone(b, '/');
  }

  /** A bare path is wrapped, and its path is the bare path again, colons
      and all. */
  lemma {:induction false} PlainPath(p: string)
    requires !HasPrefix(p)
    ensures ParseName(p).name == Prefix + p + ":"
    ensures ParseName(p).path == p
    ensures ParseName(p).safe == Basename(p)
  {
    var n := Prefix + p + ":";
    assert n[|Prefix|..] == p + [':'] + "";
    PrefixSplit(n);
    SplitConcat(p, ':', "");
    SplitNone("", ':');
    var parts := Split(n, ':');
    assert parts == ["RADARSAT2_DS"] + Split(p, ':') + [""];
    assert parts[1..|parts| - 1] == Split(p, ':');
    JoinSplit(p, ':');
  }

  /** For a prefixed name `RADARSAT2_DS:<mid>:<last>`, the path is everything
      between the first and the last colon, colons of `mid` included. */
  lemma {:induction false} PathBetweenColons(mid: string, last: string)
    requires ':' !in last
    ensures var r := ParseName(Prefix + mid + ":" + last);
            r.name == Prefix + mid + ":" + last && r.path == mid && r.safe == Basename(mid)
  {
    var n := Prefix + mid + ":" + last;
    assert n[|Prefix|..] == mid + [':'] + last;
    PrefixSplit(n);
    SplitConcat(mid, ':', last);
    SplitNone(last, ':');
    var parts := Split(n, ':');
    assert parts == ["RADARSAT2_DS"] + Split(mid, ':') + [last];
    assert parts[1..|parts| - 1] == Split(mid, ':');
    JoinSplit(mid, ':');
  }

  /** A prefixed name with no second colon, `RADARSAT2_DS:<rest>`, has no
      path at all: its path, and so its `safe`, are empty, while its short
      name still carries the basename of `rest`. */
  lemma {:induction false} PrefixWithoutSecondColon(rest: string)
    requires ':' !in rest
    ensures var r := ParseName(Prefix + rest);
            r.name == Prefix + rest && r.path == "" && r.safe == "" &&
            r.shortName == Prefix + Basename(rest)
  {
    var n := Prefix + rest;
    assert n[|Prefix|..] == rest;
    PrefixSplit(n);
    SplitNone(rest, ':');
    var parts := Split(n, ':');
    assert parts == ["RADARSAT2_DS", rest];
    assert parts[1..|parts| - 1] == [];
    SplitNone("", '/');
    assert Join(["RADARSAT2_DS", Basename(rest)], ':') == "RADARSAT2_DS" + [':'] + Basename(rest);
  }

  /** With at least three pieces, the short name is the prefix, the basename
      of the path and the last piece. */
  lemma {:induction false} ShortNameForm(name: string)
    ensures var r := ParseName(name);
            var parts := Split(r.name, ':');
            |parts| >= 3 ==> r.shortName == Prefix + Basename(r.path) + ":" + parts[|parts| - 1]
  {
    var r := ParseName(name);
    PrefixSplit(r.name);
    var parts := Split(r.name, ':');
    if |parts| >= 3 {
      ShortNameOfParts(parts);
    }
  }

  lemma ShortNameOfParts(parts: seq<string>)
    requires |parts| >= 3 && parts[0] == "RADARSAT2_DS"
    ensures ShortName(parts) == Prefix + Basename(Join(parts[1..|parts| - 1], ':')) + ":" + parts[|parts| - 1]
  {
    var mid := Join(parts[1..|parts| - 1], ':');
    var last := parts[|parts| - 1];
    var kept := if |parts| > 3 then [parts[0], mid, last] else parts;
    if |parts| == 3 {
      assert parts[1..2] == [parts[1]];
      assert kept == [parts[0], mid, last];
    }
    var b := Basename(mid);
    var shown := ["RADARSAT2_DS", b, last];
    assert kept[1 := b] == shown;
    assert shown[1..] == [b, last];
    assert shown[1..][1..] == [last];
    assert Join(shown, ':') == "RADARSAT2_DS" + [':'] + (b + [':'] + last);
    assert Prefix + b + ":" + last == "RADARSAT2_DS" + [':'] + (b + [':'] + last);
  }

  /** For a bare path, the short name is `RADARSAT2_DS:<basename>:`. */
  lemma ShortNameOfPlainPath(p: string)
    requires !HasPrefix(p)
    ensures ParseName(p).shortName == Prefix + Basename(p) + ":"
  {
    var n := Prefix + p + ":";
    var parts := Split(n, ':');
    assert parts == ["RADARSAT2_DS"] + Split(p, ':') + [""] by {
      assert n[|Prefix|..] == p + [':'] + "";
      PrefixSplit(n);
      SplitConcat(p, ':', "");
      SplitNone("", ':');
    }
    assert parts[1..|parts| - 1] == Split(p, ':');
    JoinSplit(p, ':');
    ShortNameOfParts(parts);
  }

  /** For a product directory `<dir>/<f0>_<f1>_..._<fk>`, the product type
      is field 9 (`"XXX"` without one) and the swath is field 4 (an
      IndexError without one). */
  lemma {:induction false} FieldsOfDirectory(dir: string, fields: seq<string>)
    requires |fields| >= 1
    requires forall i :: 0 <= i < |fields| ==> '_' !in fields[i]
    requires '/' !in Join(fields, '_')
    ensures ProductOf(dir + "/" + Join(fields, '_')) == (if |fields| > 9 then fields[9] else "XXX")
    ensures SwathOf(dir + "/" + Join(fields, '_')) == (if |fields| > 4 then Success(fields[4]) else Failure(IndexError))
  {
    BasenameOfJoin(dir, Join(fields, '_'));
    SplitJoin(fields, '_');
  }

  /** Parsing the stored name again gives the same names: the identity
      used when an instance is rebuilt from its name. */
  lemma ParseNameStable(name: string)
    ensures ParseName(ParseName(name).name) == ParseName(name)
  {
  }
}
