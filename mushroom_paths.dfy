/**
 * `MushroomPath`: a topic name split on `/` into its segments.
 * The conversion from a string is Rust's `str::split("/")`, which keeps
 * empty segments (a leading `/` gives a leading empty segment), and the
 * conversion back is `join("/")`.
 */
module MushroomPaths {

  datatype MushroomPath = MushroomPath(segments: seq<string>)

  /** `s.split("/")`: always at least one segment, none containing `/`. */
  function Split(s: string): (segs: seq<string>)
    ensures |segs| >= 1
    ensures forall i :: 0 <= i < |segs| ==> '/' !in segs[i]
  {
    if |s| == 0 then [""]
    else
      var rest := Split(s[1..]);
      if s[0] == '/' then [""] + rest
      else [[s[0]] + rest[0]] + rest[1..]
  }

  /** `segs.join("/")`. */
  function Join(segs: seq<string>): string {
    if |segs| == 0 then ""
    else if |segs| == 1 then segs[0]
    else segs[0] + "/" + Join(segs[1..])
  }

  /** `impl From<String> for MushroomPath` (and the `&str` form, which is the same). */
  function FromString(s: string): MushroomPath {
    MushroomPath(Split(s))
  }

  /** `impl From<MushroomPath> for String`. */
  function ToString(p: MushroomPath): string {
    Join(p.segments)
  }

  /** Every string converts to a path and back unchanged. */
  lemma {:induction false} StringRoundTrip(s: string)
    ensures ToString(FromString(s)) == s
  {
    if |s| > 0 {
      StringRoundTrip(s[1..]);
      var rest := Split(s[1..]);
      if s[0] == '/' {
        assert Split(s)[1..] == rest;
      } else if |rest| == 1 {
        assert Join(rest) == rest[0];
      } else {
        assert Split(s)[1..] == rest[1..];
        assert Join(rest) == rest[0] + "/" + Join(rest[1..]);
      }
    }
  }

  /** Splitting a `/`-free segment followed by `/` and more text. */
  lemma {:induction false} SplitSegmentThenSlash(seg: string, rest: string)
    requires '/' !in seg
    ensures Split(seg + "/" + rest) == [seg] + Split(rest)
  {
    if |seg| == 0 {
      assert seg + "/" + rest == "/" + rest;
      assert ("/" + rest)[1..] == rest;
    } else {
      var s := seg + "/" + rest;
      assert s[1..] == seg[1..] + "/" + rest;
      SplitSegmentThenSlash(seg[1..], rest);
      assert [seg[0]] + seg[1..] == seg;
    }
  }

  /** Splitting a `/`-free string gives it back as the only segment. */
  lemma {:induction false} SplitSegment(seg: string)
    requires '/' !in seg
    ensures Split(seg) == [seg]
  {
    if |seg| > 0 {
      SplitSegment(seg[1..]);
      assert [seg[0]] + seg[1..] == seg;
    }
  }

  /** A non-empty list of `/`-free segments converts to a string and back unchanged. */
  lemma {:induction false} PathRoundTrip(p: MushroomPath)
    requires |p.segments| >= 1
    requires forall i :: 0 <= i < |p.segments| ==> '/' !in p.segments[i]
    ensures FromString(ToString(p)) == p
    decreases |p.segments|
  {
    var segs := p.segments;
    if |segs| == 1 {
      SplitSegment(segs[0]);
    } else {
      PathRoundTrip(MushroomPath(segs[1..]));
      SplitSegmentThenSlash(segs[0], Join(segs[1..]));
      assert [segs[0]] + segs[1..] == segs;
    }
  }

  /** Two strings name the same path exactly when they are equal. */
  lemma FromStringInjective(s: string, t: string)
    ensures FromString(s) == FromString(t) <==> s == t
  {
    StringRoundTrip(s);
    StringRoundTrip(t);
  }
}
