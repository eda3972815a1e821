/** Picture sizes as the settings store them: "WxH" text, written by
    `sizeListToStringList` and read back by `setCameraPictureSize`. */
module PictureSizes {
  import opened Wrappers
  import opened Text

  /** `Camera.Size`: a width and a height, both Java ints. */
  datatype Size = Size(width: int, height: int)

  /** `String.format("%dx%d", width, height)` in a locale whose digits are
      the ASCII ones. */
  function FormatSize(size: Size): string {
    IntToString(size.width) + "x" + IntToString(size.height)
  }

  /** `f` applied to each element, in order. */
  function Mapped<A, B>(xs: seq<A>, f: A -> B): (ys: seq<B>)
    ensures |ys| == |xs|
    ensures forall i :: 0 <= i < |xs| ==> ys[i] == f(xs[i])
  {
    seq(|xs|, i requires 0 <= i < |xs| => f(xs[i]))
  }

  /** Mapping one more element appends its image. */
  lemma MappedSnoc<A, B>(xs: seq<A>, n: int, f: A -> B)
    requires 0 <= n < |xs|
    ensures Mapped(xs[..n + 1], f) == Mapped(xs[..n], f) + [f(xs[n])]
  {
  }

  /** The sizes formatted one by one, in order. */
  function FormatSizes(sizes: seq<Size>): seq<string> {
    Mapped(sizes, FormatSize)
  }

  /** `sizeListToStringList`: the sizes formatted one by one, in order. */
  method SizeListToStringList(sizes: seq<Size>) returns (list: seq<string>)
    ensures list == FormatSizes(sizes)
  {
    list := [];
    for i := 0 to |sizes|
      invariant list == Mapped(sizes[..i], FormatSize)
    {
      MappedSnoc(sizes, i, FormatSize);
      list := list + [FormatSize(sizes[i])];
    }
    assert sizes[..|sizes|] == sizes;
  }

  /** The two `Integer.parseInt` calls of `setCameraPictureSize` succeed
      whenever they are reached; they are not guarded by a `try`. */
  predicate CandidateParses(candidate: string) {
    var index := IndexOf(candidate, 'x');
    index == -1
    || (ParseInt(candidate[..index]).Some? && ParseInt(candidate[index + 1..]).Some?)
  }

  /** The size a candidate names: the text before the first 'x' is the
      width and the text after it the height; `None` when there is no 'x'. */
  function ParsePictureSize(candidate: string): (r: Option<Size>)
    requires CandidateParses(candidate)
    ensures r.None? <==> 'x' !in candidate
    ensures r.Some? ==> IsInt32(r.value.width) && IsInt32(r.value.height)
  {
    var index := IndexOf(candidate, 'x');
    if index == -1 then None
    else Some(Size(ParseInt(candidate[..index]).value, ParseInt(candidate[index + 1..]).value))
  }

  /** `setCameraPictureSize`: the size the candidate names is chosen (passed
      to `Parameters.setPictureSize`) when it is one of the supported sizes;
      `None` is the `false` return, with nothing chosen. */
  method SetCameraPictureSize(candidate: string, supported: seq<Size>) returns (chosen: Option<Size>)
    requires CandidateParses(candidate)
    ensures chosen.Some? <==> ParsePictureSize(candidate).Some? && ParsePictureSize(candidate).value in supported
    ensures chosen.Some? ==> chosen == ParsePictureSize(candidate)
  {
    var index := IndexOf(candidate, 'x');
    if index == -1 {
      return None;
    }
    var width := ParseInt(candidate[..index]).value;
    var height := ParseInt(candidate[index + 1..]).value;
    for i := 0 to |supported|
      invariant Size(width, height) !in supported[..i]
    {
      if supported[i].width == width && supported[i].height == height {
        return Some(Size(width, height));
      }
    }
    return None;
  }

  /** A formatted size is a valid candidate and parses back to itself. */
  lemma ParseFormattedSize(size: Size)
    requires IsInt32(size.width) && IsInt32(size.height)
    ensures CandidateParses(FormatSize(size))
    ensures ParsePictureSize(FormatSize(size)) == Some(size)
  {
    var w := IntToString(size.width);
    var h := IntToString(size.height);
    var s := FormatSize(size);
    IntToStringAvoids(size.width, 'x');
    assert s[|w|] == 'x';
    assert s[..|w|] == w;
    assert s[|w| + 1..] == h;
    assert IndexOf(s, 'x') == |w|;
    ParseIntToString(size.width);
    ParseIntToString(size.height);
  }

  /** Every entry `sizeListToStringList` writes is accepted by
      `setCameraPictureSize` against the same list, choosing that size. */
  lemma FormattedSizeAccepted(sizes: seq<Size>, i: int)
    requires 0 <= i < |sizes|
    requires IsInt32(sizes[i].width) && IsInt32(sizes[i].height)
    ensures CandidateParses(FormatSize(sizes[i]))
    ensures ParsePictureSize(FormatSize(sizes[i])) == Some(sizes[i])
    ensures ParsePictureSize(FormatSize(sizes[i])).value in sizes
  {
    ParseFormattedSize(sizes[i]);
  }
}
