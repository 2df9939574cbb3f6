/** The chunk sizes handed to the raster reader when the digital numbers are
    loaded: one polarisation per chunk, keys ordered as the dimensions, and
    the same sizes under the reader's own dimension names. The order in
    which the caller inserted keys is not modelled: sorting removes it. */
module Chunks {
  import opened Common

  /** The dataset dimensions, in order. */
  const Dims: seq<string> := ["pol", "atrack", "xtrack"]

  /** The keys of a list of items, in order. */
  function KeySeq(items: seq<(string, int)>): (r: seq<string>)
    ensures |r| == |items| && forall i :: 0 <= i < |r| ==> r[i] == items[i].0
  {
    if |items| == 0 then [] else [items[0].0] + KeySeq(items[1..])
  }

  /** The items of `d` whose keys are among `keys`, in the order of `keys`. */
  function ItemsIn(keys: seq<string>, d: map<string, int>): (r: seq<(string, int)>)
    ensures forall i :: 0 <= i < |r| ==> r[i].0 in d && r[i].1 == d[r[i].0]
    ensures forall k :: k in KeySeq(r) <==> k in keys && k in d
  {
    if |keys| == 0 then []
    else
      var rest := ItemsIn(keys[1..], d);
      assert forall k :: k in keys <==> k == keys[0] || k in keys[1..];
      if keys[0] in d then
        assert KeySeq([(keys[0], d[keys[0]])] + rest) == [keys[0]] + KeySeq(rest);
        [(keys[0], d[keys[0]])] + rest
      else rest
  }

  /** The sizes under the reader's names: band, y, x. */
  function RioChunks(d: map<string, int>): (r: Result<seq<(string, int)>>)
    ensures r.Success? <==> "pol" in d && "atrack" in d && "xtrack" in d
    ensures r.Failure? ==> r.error.KeyError?
  {
    if "pol" !in d then Failure(KeyError("pol"))
    else if "atrack" !in d then Failure(KeyError("atrack"))
    else if "xtrack" !in d then Failure(KeyError("xtrack"))
    else Success([("band", d["pol"]), ("y", d["atrack"]), ("x", d["xtrack"])])
  }

  /** The chunk normalisation of `_load_digital_number`: `chunks['pol'] = 1`,
      items sorted by the rank of their key (a key that is not a dimension
      makes the sort raise ValueError), then the sizes under the reader's
      dimension names (a missing dimension is a KeyError). */
  function NormalizeChunks(chunks: map<string, int>): (r: Result<(seq<(string, int)>, seq<(string, int)>)>)
    ensures r.Failure? ==> r.error.ValueError? || r.error.KeyError?
    ensures r.Success? ==> |r.value.0| > 0 && r.value.0[0] == ("pol", 1)
    ensures r.Success? ==> |r.value.1| == 3 && r.value.1[0] == ("band", 1)
  {
    var withPol := chunks["pol" := 1];
    if exists k :: k in withPol && k !in Dims then Failure(ValueError("chunk key is not a dimension"))
    else
      var sorted := ItemsIn(Dims, withPol);
      var rio :- RioChunks(withPol);
      Success((sorted, rio))
  }

  /** The sorted items hold every item of the dict once, pol first, then
      atrack and xtrack when present. */
  lemma SortedByDims(chunks: map<string, int>)
    requires forall k :: k in chunks ==> k in Dims
    ensures var sorted := ItemsIn(Dims, chunks["pol" := 1]);
            (sorted == [("pol", 1)] +
               (if "atrack" in chunks then [("atrack", chunks["atrack"])] else []) +
               (if "xtrack" in chunks then [("xtrack", chunks["xtrack"])] else [])) &&
            (forall k :: k in KeySeq(sorted) <==> k == "pol" || k in chunks)
  {
    var d := chunks["pol" := 1];
    var xs := if "xtrack" in chunks then [("xtrack", chunks["xtrack"])] else [];
    var ats := if "atrack" in chunks then [("atrack", chunks["atrack"])] else [];
    assert Dims[1..][1..] == ["xtrack"];
    assert ["xtrack"][1..] == [];
    assert ItemsIn(["xtrack"], d) == xs;
    assert ItemsIn(Dims[1..], d) == ats + xs;
    assert ItemsIn(Dims, d) == [("pol", 1)] + (ats + xs);
  }

  /** With only dimension keys and both spatial sizes given, the sorted
      chunks are pol, atrack, xtrack with one polarisation per chunk, and
      the reader gets the same sizes as band, y, x. */
  lemma NormalizeComplete(chunks: map<string, int>)
    requires forall k :: k in chunks ==> k in Dims
    requires "atrack" in chunks && "xtrack" in chunks
    ensures var a := chunks["atrack"];
            var x := chunks["xtrack"];
            NormalizeChunks(chunks) ==
              Success(([("pol", 1), ("atrack", a), ("xtrack", x)], [("band", 1), ("y", a), ("x", x)]))
  {
    var d := chunks["pol" := 1];
    var a := chunks["atrack"];
    var x := chunks["xtrack"];
    assert !exists k :: k in d && k !in Dims;
    SortedByDims(chunks);
    assert ItemsIn(Dims, d) == [("pol", 1), ("atrack", a), ("xtrack", x)];
    assert RioChunks(d) == Success([("band", 1), ("y", a), ("x", x)]);
  }

  /** A key that is not a dimension is a ValueError. */
  lemma NormalizeUnknownKey(chunks: map<string, int>, k: string)
    requires k in chunks && k !in Dims
    ensures NormalizeChunks(chunks).Failure? && NormalizeChunks(chunks).error.ValueError?
  {
    assert k in chunks["pol" := 1];
  }

  /** With dimension keys only, a missing spatial size is a KeyError. */
  lemma NormalizeMissingSize(chunks: map<string, int>)
    requires forall k :: k in chunks ==> k in Dims
    requires "atrack" !in chunks || "xtrack" !in chunks
    ensures NormalizeChunks(chunks).Failure? && NormalizeChunks(chunks).error.KeyError?
  {
  }
}
