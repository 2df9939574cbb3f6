/** Shared vocabulary: optional values (NaN as `None`), the exceptions the
    modelled code raises, and small sequence helpers. */
module Common {

  datatype Option<+T> = None | Some(value: T)

  /** A pixel value: `None` stands for a floating-point NaN ("missing"). */
  type Pixel = Option<real>

  /** A variable of the dataset, flattened over its (pol, line, sample) grid. */
  type Field = seq<Pixel>

  /** The Python exceptions raised by the modelled code. */
  datatype Error =
    | ValueError(what: string)
    | KeyError(key: string)
    | IndexError
    | NotImplementedError(what: string)
    | AssertionError
    | AttributeError(attr: string)
    | UnboundLocalError(name: string)
    | NotInvertible

  datatype Result<+T> = Success(value: T) | Failure(error: Error) {
    predicate IsFailure() { Failure? }
    function PropagateFailure<U>(): Result<U>
      requires Failure?
    {
      Failure(error)
    }
    function Extract(): T
      requires Success?
    {
      value
    }
  }

  datatype Outcome = Pass | Fail(error: Error)

  /** `sep.join(parts)` */
  function Join(parts: seq<string>, sep: char): (s: string)
    ensures |parts| == 1 ==> s == parts[0]
  {
    if |parts| == 0 then ""
    else if |parts| == 1 then parts[0]
    else parts[0] + [sep] + Join(parts[1..], sep)
  }

  /** `s.split(sep)`: the pieces between occurrences of `sep`. */
  function Split(s: string, sep: char): (parts: seq<string>)
    ensures |parts| >= 1
    ensures forall i :: 0 <= i < |parts| ==> sep !in parts[i]
    decreases |s|
  {
    if sep !in s then [s]
    else
      var i := FirstIndex(s, sep);
      [s[..i]] + Split(s[i + 1..], sep)
  }

  function FirstIndex(s: string, c: char): (i: nat)
    requires c in s
    ensures i < |s| && s[i] == c && c !in s[..i]
  {
    if s[0] == c then 0 else 1 + FirstIndex(s[1..], c)
  }

  /** Splitting and joining back on the same separator gives the string back. */
  lemma {:induction false} JoinSplit(s: string, sep: char)
    ensures Join(Split(s, sep), sep) == s
    decreases |s|
  {
    if sep in s {
      var i := FirstIndex(s, sep);
      var rest := Split(s[i + 1..], sep);
      JoinSplit(s[i + 1..], sep);
      assert Split(s, sep) == [s[..i]] + rest;
      assert s == s[..i] + [sep] + s[i + 1..];
    }
  }

  /** A piece free of the separator, followed by the separator, splits off as
      the first piece. */
  lemma SplitCons(x: string, sep: char, y: string)
    requires sep !in x
    ensures Split(x + [sep] + y, sep) == [x] + Split(y, sep)
  {
    var s := x + [sep] + y;
    assert s[|x|] == sep;
    var i := FirstIndex(s, sep);
    assert s[..i] == x;
    assert s[i + 1..] == y;
  }

  /** Splitting a string with no separator in it gives that string alone. */
  lemma SplitNone(x: string, sep: char)
    requires sep !in x
    ensures Split(x, sep) == [x]
  {
  }

  /** Joining pieces that are free of the separator and splitting again gives
      the pieces back. */
  lemma {:induction false} SplitJoin(parts: seq<string>, sep: char)
    requires |parts| >= 1
    requires forall i :: 0 <= i < |parts| ==> sep !in parts[i]
    ensures Split(Join(parts, sep), sep) == parts
  {
    if |parts| == 1 {
      SplitNone(parts[0], sep);
    } else {
      SplitJoin(parts[1..], sep);
      SplitCons(parts[0], sep, Join(parts[1..], sep));
    }
  }

  /** A separator in the string splits it into at least two pieces. */
  lemma SplitSome(s: string, sep: char)
    requires sep in s
    ensures |Split(s, sep)| >= 2
  {
  }

  /** Splitting `x + sep + y` splits `x` and `y` separately. */
  lemma SplitConcat(x: string, sep: char, y: string)
    ensures Split(x + [sep] + y, sep) == Split(x, sep) + Split(y, sep)
  {
    var xs := Split(x, sep);
    var ys := Split(y, sep);
    JoinSplit(x, sep);
    JoinSplit(y, sep);
    JoinConcat(xs, ys, sep);
    assert Join(xs + ys, sep) == x + [sep] + y;
    SplitJoin(xs + ys, sep);
  }

  /** Joining two non-empty lists of pieces puts one separator between
      their joins. */
  lemma {:induction false} JoinConcat(xs: seq<string>, ys: seq<string>, sep: char)
    requires |xs| >= 1 && |ys| >= 1
    ensures Join(xs + ys, sep) == Join(xs, sep) + [sep] + Join(ys, sep)
  {
    if |xs| == 1 {
      assert (xs + ys)[1..] == ys;
    } else {
      JoinConcat(xs[1..], ys, sep);
      assert (xs + ys)[1..] == xs[1..] + ys;
    }
  }

  function Max(x: real, y: real): real { if x >= y then x else y }
}
